/** The title normaliser of utils.py: `normalize_title` lower-cases a title,
    turns every character outside `[a-z0-9\s]` into a space, collapses each
    run of whitespace into one space and strips both ends. Its result is the
    join key of every upsert. */
module Normalize {
  import opened Wrappers

  /** Whitespace as Python's `str.isspace` sees it; on `str` the regex class
      `\s` and `str.strip()` both use exactly this set. */
  predicate IsSpace(c: char) {
    c == ' ' || ('\t' <= c <= '\r') || ('\U{1C}' <= c <= '\U{1F}')
    || c == '\U{85}' || c == '\U{A0}' || c == '\U{1680}'
    || ('\U{2000}' <= c <= '\U{200A}') || c == '\U{2028}' || c == '\U{2029}'
    || c == '\U{202F}' || c == '\U{205F}' || c == '\U{3000}'
  }

  /** The characters of the class `[a-z0-9]`. */
  predicate IsWordChar(c: char) {
    ('a' <= c <= 'z') || ('0' <= c <= '9')
  }

  function LowerChar(c: char): char {
    if 'A' <= c <= 'Z' then (c as int - 'A' as int + 'a' as int) as char else c
  }

  /** `str.lower()` on the ASCII letters. */
  function Lower(t: string): string {
    seq(|t|, i requires 0 <= i < |t| => LowerChar(t[i]))
  }

  function ReplaceChar(c: char): char {
    if IsWordChar(c) || IsSpace(c) then c else ' '
  }

  /** Every character that is neither a lower-case ASCII letter, a digit
      nor whitespace becomes a space. */
  function ReplaceDisallowed(t: string): string {
    seq(|t|, i requires 0 <= i < |t| => ReplaceChar(t[i]))
  }

  /** `str.lstrip()`: what is left does not start with whitespace. */
  function StripLeft(t: string): (r: string)
    ensures |r| <= |t|
    ensures r != [] ==> !IsSpace(r[0])
  {
    if t != [] && IsSpace(t[0]) then StripLeft(t[1..]) else t
  }

  /** `str.rstrip()`: what is left does not end with whitespace. */
  function StripRight(t: string): (r: string)
    ensures |r| <= |t|
    ensures r != [] ==> !IsSpace(r[|r| - 1])
  {
    if t != [] && IsSpace(t[|t| - 1]) then StripRight(t[..|t| - 1]) else t
  }

  /** `str.strip()`. */
  function Strip(t: string): string {
    StripRight(StripLeft(t))
  }

  /** Every maximal run of whitespace becomes one space. */
  function CollapseSpaces(t: string): (r: string)
    ensures |r| <= |t|
    decreases |t|
  {
    if t == [] then []
    else if IsSpace(t[0]) then " " + CollapseSpaces(StripLeft(t[1..]))
    else [t[0]] + CollapseSpaces(t[1..])
  }

  /** Lower-casing and then replacing, character by character. */
  function Mask(t: string): string {
    ReplaceDisallowed(Lower(t))
  }

  /** `normalize_title` on a string (utils.py:5-9). */
  function Normalize(t: string): (r: string)
    ensures |r| <= |t|
  {
    Strip(CollapseSpaces(ReplaceDisallowed(Lower(t))))
  }

  /** `normalize_title(title)` where the title may be None: `(title or "")`. */
  function NormalizeTitle(title: Option<string>): (r: string)
    ensures title.None? || title == Some("") ==> r == ""
    ensures |r| <= |title.GetOr("")|
  {
    Normalize(title.GetOr(""))
  }

  // ---------------------------------------------------------------------
  // Shape of the output

  ghost predicate AllSpace(s: string) {
    forall i | 0 <= i < |s| :: IsSpace(s[i])
  }

  /** Every character is kept by `[a-z0-9\s]`. */
  ghost predicate Clean(s: string) {
    forall i | 0 <= i < |s| :: IsWordChar(s[i]) || IsSpace(s[i])
  }

  /** Every character is in `[a-z0-9]` or is the plain space. */
  ghost predicate WordsAndSpaces(s: string) {
    forall i | 0 <= i < |s| :: IsWordChar(s[i]) || s[i] == ' '
  }

  ghost predicate NoDoubleSpace(s: string) {
    forall i | 0 <= i < |s| - 1 :: !(s[i] == ' ' && s[i + 1] == ' ')
  }

  /** The normal form: lowercase letters, digits and single inner spaces. */
  ghost predicate IsNormal(s: string) {
    && WordsAndSpaces(s)
    && NoDoubleSpace(s)
    && (s != [] ==> s[0] != ' ' && s[|s| - 1] != ' ')
  }

  lemma {:induction false} StripLeftSuffix(t: string)
    ensures StripLeft(t) == t[|t| - |StripLeft(t)|..]
    ensures AllSpace(t[..|t| - |StripLeft(t)|])
    decreases |t|
  {
    if t != [] && IsSpace(t[0]) {
      StripLeftSuffix(t[1..]);
      var k := |t| - |StripLeft(t)|;
      assert t[1..][k - 1..] == t[k..];
      forall i | 0 <= i < k ensures IsSpace(t[..k][i]) {
        if i > 0 {
          assert t[..k][i] == t[1..][..k - 1][i - 1];
        }
      }
    }
  }

  lemma {:induction false} StripRightPrefix(t: string)
    ensures StripRight(t) == t[..|StripRight(t)|]
    ensures AllSpace(t[|StripRight(t)|..])
    decreases |t|
  {
    if t != [] && IsSpace(t[|t| - 1]) {
      var t' := t[..|t| - 1];
      StripRightPrefix(t');
      var k := |StripRight(t)|;
      assert t'[..k] == t[..k];
      forall i | 0 <= i < |t| - k ensures IsSpace(t[k..][i]) {
        if i < |t| - 1 - k {
          assert t[k..][i] == t'[k..][i];
        }
      }
    }
  }

  lemma SuffixShape(s: string, k: nat)
    requires WordsAndSpaces(s) && NoDoubleSpace(s) && k <= |s|
    ensures WordsAndSpaces(s[k..]) && NoDoubleSpace(s[k..])
  {
    forall i | 0 <= i < |s| - k - 1 ensures !(s[k..][i] == ' ' && s[k..][i + 1] == ' ') {
      assert s[k..][i] == s[k + i] && s[k..][i + 1] == s[k + i + 1];
    }
  }

  lemma PrefixShape(s: string, k: nat)
    requires WordsAndSpaces(s) && NoDoubleSpace(s) && k <= |s|
    ensures WordsAndSpaces(s[..k]) && NoDoubleSpace(s[..k])
  {
  }

  lemma ConsShape(c: char, s: string)
    requires WordsAndSpaces(s) && NoDoubleSpace(s)
    requires IsWordChar(c) || c == ' '
    requires c == ' ' && s != [] ==> s[0] != ' '
    ensures WordsAndSpaces([c] + s) && NoDoubleSpace([c] + s)
  {
    var r := [c] + s;
    forall i | 0 <= i < |r| - 1 ensures !(r[i] == ' ' && r[i + 1] == ' ') {
      if i > 0 {
        assert r[i] == s[i - 1] && r[i + 1] == s[i];
      }
    }
  }

  lemma CollapseSpaceHead(c: char, rest: string)
    requires IsSpace(c)
    ensures CollapseSpaces([c] + rest) == " " + CollapseSpaces(StripLeft(rest))
  {
    assert ([c] + rest)[1..] == rest;
  }

  lemma CollapseWordHead(c: char, rest: string)
    requires !IsSpace(c)
    ensures CollapseSpaces([c] + rest) == [c] + CollapseSpaces(rest)
  {
    assert ([c] + rest)[1..] == rest;
  }

  lemma {:induction false} CollapseShape(t: string)
    requires Clean(t)
    ensures WordsAndSpaces(CollapseSpaces(t)) && NoDoubleSpace(CollapseSpaces(t))
    ensures t != [] && !IsSpace(t[0]) ==> CollapseSpaces(t) != [] && CollapseSpaces(t)[0] == t[0]
    decreases |t|
  {
    if t != [] {
      assert t == [t[0]] + t[1..];
      if IsSpace(t[0]) {
        var u := StripLeft(t[1..]);
        StripLeftSuffix(t[1..]);
        assert Clean(u) by {
          forall i | 0 <= i < |u| ensures IsWordChar(u[i]) || IsSpace(u[i]) {
            assert u[i] == t[|t| - |u| + i];
          }
        }
        CollapseShape(u);
        CollapseSpaceHead(t[0], t[1..]);
        ConsShape(' ', CollapseSpaces(u));
      } else {
        assert Clean(t[1..]);
        CollapseShape(t[1..]);
        CollapseWordHead(t[0], t[1..]);
        ConsShape(t[0], CollapseSpaces(t[1..]));
      }
    }
  }

  lemma StripShape(s: string)
    requires WordsAndSpaces(s) && NoDoubleSpace(s)
    ensures IsNormal(Strip(s))
  {
    var l := StripLeft(s);
    StripLeftSuffix(s);
    SuffixShape(s, |s| - |l|);
    var r := StripRight(l);
    StripRightPrefix(l);
    PrefixShape(l, |r|);
    if r != [] {
      assert r[0] == l[0];
    }
  }

  /** The output holds only `[a-z0-9]` and single spaces, neither leading
      nor trailing. */
  lemma NormalizeIsNormal(t: string)
    ensures IsNormal(Normalize(t))
  {
    var u := ReplaceDisallowed(Lower(t));
    assert Clean(u);
    CollapseShape(u);
    StripShape(CollapseSpaces(u));
  }

  // ---------------------------------------------------------------------
  // Idempotence

  lemma {:induction false} CollapseFixed(s: string)
    requires WordsAndSpaces(s) && NoDoubleSpace(s)
    ensures CollapseSpaces(s) == s
    decreases |s|
  {
    if s != [] {
      assert s == [s[0]] + s[1..];
      SuffixShape(s, 1);
      CollapseFixed(s[1..]);
      if IsSpace(s[0]) {
        CollapseSpaceHead(s[0], s[1..]);
        assert s[1..] != [] ==> s[1..][0] == s[1];
      } else {
        CollapseWordHead(s[0], s[1..]);
      }
    }
  }

  lemma MaskFixed(s: string)
    requires WordsAndSpaces(s)
    ensures Mask(s) == s
  {
    assert Lower(s) == s;
    assert ReplaceDisallowed(s) == s;
  }

  lemma StripFixed(s: string)
    requires IsNormal(s)
    ensures Strip(s) == s
  {
    if s != [] {
      assert !IsSpace(s[0]) && !IsSpace(s[|s| - 1]);
    }
  }

  /** An already normal title is its own normal form. */
  lemma NormalizeFixesNormal(s: string)
    requires IsNormal(s)
    ensures Normalize(s) == s
  {
    MaskFixed(s);
    CollapseFixed(s);
    StripFixed(s);
  }

  /** normalize(normalize(t)) == normalize(t). */
  lemma NormalizeIdempotent(t: string)
    ensures Normalize(Normalize(t)) == Normalize(t)
  {
    NormalizeIsNormal(t);
    NormalizeFixesNormal(Normalize(t));
  }

  // ---------------------------------------------------------------------
  // Letters and digits are kept, in order

  /** The characters of `s` in `[a-z0-9]`, in order. */
  function WordChars(s: string): string {
    if s == [] then [] else (if IsWordChar(s[0]) then [s[0]] else []) + WordChars(s[1..])
  }

  /** `s` with every plain space removed. */
  function WithoutSpaces(s: string): string {
    if s == [] then [] else (if s[0] == ' ' then [] else [s[0]]) + WithoutSpaces(s[1..])
  }

  lemma {:induction false} WordCharsAppend(a: string, b: string)
    ensures WordChars(a + b) == WordChars(a) + WordChars(b)
    decreases |a|
  {
    if a != [] {
      assert (a + b)[0] == a[0] && (a + b)[1..] == a[1..] + b;
      WordCharsAppend(a[1..], b);
    } else {
      assert a + b == b;
    }
  }

  lemma {:induction false} WordCharsOfSpaces(s: string)
    requires AllSpace(s)
    ensures WordChars(s) == []
    decreases |s|
  {
    if s != [] {
      assert AllSpace(s[1..]);
      WordCharsOfSpaces(s[1..]);
    }
  }

  lemma {:induction false} WordCharsReplace(t: string)
    ensures WordChars(ReplaceDisallowed(t)) == WordChars(t)
    decreases |t|
  {
    if t != [] {
      assert ReplaceDisallowed(t)[1..] == ReplaceDisallowed(t[1..]);
      WordCharsReplace(t[1..]);
    }
  }

  lemma WordCharsStrip(t: string)
    ensures WordChars(StripLeft(t)) == WordChars(t)
    ensures WordChars(StripRight(t)) == WordChars(t)
  {
    WordCharsStripLeft(t);
    WordCharsStripRight(t);
  }

  lemma WordCharsStripLeft(t: string)
    ensures WordChars(StripLeft(t)) == WordChars(t)
  {
    var l := StripLeft(t);
    StripLeftSuffix(t);
    var k := |t| - |l|;
    assert t == t[..k] + l;
    WordCharsAppend(t[..k], l);
    WordCharsOfSpaces(t[..k]);
  }

  lemma WordCharsStripRight(t: string)
    ensures WordChars(StripRight(t)) == WordChars(t)
  {
    var r := StripRight(t);
    StripRightPrefix(t);
    assert t == r + t[|r|..];
    WordCharsAppend(r, t[|r|..]);
    WordCharsOfSpaces(t[|r|..]);
  }

  lemma {:induction false} WordCharsCollapse(t: string)
    ensures WordChars(CollapseSpaces(t)) == WordChars(t)
    decreases |t|
  {
    if t != [] {
      assert t == [t[0]] + t[1..];
      if IsSpace(t[0]) {
        var u := StripLeft(t[1..]);
        WordCharsCollapse(u);
        WordCharsStrip(t[1..]);
        CollapseSpaceHead(t[0], t[1..]);
        WordCharsAppend(" ", CollapseSpaces(u));
        WordCharsAppend([t[0]], t[1..]);
      } else {
        WordCharsCollapse(t[1..]);
        CollapseWordHead(t[0], t[1..]);
        WordCharsAppend([t[0]], CollapseSpaces(t[1..]));
        WordCharsAppend([t[0]], t[1..]);
      }
    }
  }

  lemma {:induction false} WithoutSpacesIsWordChars(s: string)
    requires WordsAndSpaces(s)
    ensures WithoutSpaces(s) == WordChars(s)
    decreases |s|
  {
    if s != [] {
      assert WordsAndSpaces(s[1..]);
      WithoutSpacesIsWordChars(s[1..]);
    }
  }

  /** With its spaces removed the output is the lower-cased title filtered
      to `[a-z0-9]`: no letter or digit is lost, added or reordered. */
  lemma NormalizeKeepsWordChars(t: string)
    ensures WithoutSpaces(Normalize(t)) == WordChars(Lower(t))
  {
    var u := ReplaceDisallowed(Lower(t));
    WordCharsReplace(Lower(t));
    WordCharsCollapse(u);
    WordCharsStrip(CollapseSpaces(u));
    WordCharsStrip(StripLeft(CollapseSpaces(u)));
    NormalizeIsNormal(t);
    WithoutSpacesIsWordChars(Normalize(t));
  }

  // ---------------------------------------------------------------------
  // Case and separators do not matter

  /** A character that does not survive as a letter or digit: punctuation,
      whitespace, anything outside ASCII. */
  predicate IsSeparator(c: char) {
    !IsWordChar(LowerChar(c))
  }

  lemma StripLeftCons(c: char, rest: string)
    ensures StripLeft([c] + rest) == if IsSpace(c) then StripLeft(rest) else [c] + rest
  {
    assert ([c] + rest)[1..] == rest;
  }

  lemma {:induction false} StripLeftAppend(a: string, b: string)
    ensures StripLeft(a + b) == if AllSpace(a) then StripLeft(b) else StripLeft(a) + b
    decreases |a|
  {
    if a == [] {
      assert a + b == b;
    } else {
      assert a + b == [a[0]] + (a[1..] + b);
      assert a == [a[0]] + a[1..];
      StripLeftCons(a[0], a[1..] + b);
      StripLeftCons(a[0], a[1..]);
      if IsSpace(a[0]) {
        StripLeftAppend(a[1..], b);
        assert AllSpace(a) <==> AllSpace(a[1..]) by {
          if AllSpace(a[1..]) {
            forall i | 0 <= i < |a| ensures IsSpace(a[i]) {
              if i > 0 {
                assert a[i] == a[1..][i - 1];
              }
            }
          }
        }
      }
    }
  }

  lemma AllSpaceTail(w: string)
    requires w != [] && AllSpace(w)
    ensures AllSpace(w[1..])
  {
    forall i | 0 <= i < |w| - 1 ensures IsSpace(w[1..][i]) {
      assert w[1..][i] == w[i + 1];
    }
  }

  lemma AllSpaceCons(c: char, s: string)
    ensures AllSpace([c] + s) <==> IsSpace(c) && AllSpace(s)
  {
    var r := [c] + s;
    assert r[0] == c;
    if IsSpace(c) && AllSpace(s) {
      forall i | 0 <= i < |r| ensures IsSpace(r[i]) {
        if i > 0 {
          assert r[i] == s[i - 1];
        }
      }
    }
    if AllSpace(r) {
      forall i | 0 <= i < |s| ensures IsSpace(s[i]) {
        assert s[i] == r[i + 1];
      }
    }
  }

  lemma AllSpaceConcat(a: string, b: string)
    requires AllSpace(a) && AllSpace(b)
    ensures AllSpace(a + b)
  {
  }

  /** A text opening with whitespace collapses to one space followed by
      the rest without its leading whitespace. */
  lemma LeadingSpaces(w: string, q: string)
    requires w != [] && AllSpace(w)
    ensures CollapseSpaces(w + q) == " " + CollapseSpaces(StripLeft(q))
  {
    assert w + q == [w[0]] + (w[1..] + q);
    CollapseSpaceHead(w[0], w[1..] + q);
    AllSpaceTail(w);
    StripLeftAppend(w[1..], q);
  }

  /** A leading space followed by text that is not all whitespace
      collapses to one space and the text from its first non-space on. */
  lemma SpaceHeadStep(c: char, p: string, x: string)
    requires IsSpace(c) && !AllSpace(p)
    ensures CollapseSpaces([c] + (p + x)) == " " + CollapseSpaces(StripLeft(p) + x)
  {
    CollapseSpaceHead(c, p + x);
    StripLeftAppend(p, x);
  }

  lemma ConcatAssoc(a: string, b: string, c: string)
    ensures a + (b + c) == (a + b) + c
  {
  }

  lemma ConsSplit(p: string, x: string)
    requires p != []
    ensures p + x == [p[0]] + (p[1..] + x)
  {
    assert p == [p[0]] + p[1..];
  }

  lemma CollapseRunAllSpace(p: string, w: string, q: string)
    requires AllSpace(p) && w != [] && AllSpace(w)
    ensures CollapseSpaces(p + (w + q)) == CollapseSpaces(p + (" " + q))
  {
    AllSpaceConcat(p, w);
    AllSpaceConcat(p, " ");
    LeadingSpaces(p + w, q);
    LeadingSpaces(p + " ", q);
    ConcatAssoc(p, w, q);
    ConcatAssoc(p, " ", q);
  }

  lemma CollapseRunSpaceHead(c: char, p: string, x: string, y: string)
    requires IsSpace(c) && !AllSpace(p)
    requires CollapseSpaces(StripLeft(p) + x) == CollapseSpaces(StripLeft(p) + y)
    ensures CollapseSpaces([c] + (p + x)) == CollapseSpaces([c] + (p + y))
  {
    SpaceHeadStep(c, p, x);
    SpaceHeadStep(c, p, y);
  }

  lemma CollapseRunWordHead(c: char, x: string, y: string)
    requires !IsSpace(c)
    requires CollapseSpaces(x) == CollapseSpaces(y)
    ensures CollapseSpaces([c] + x) == CollapseSpaces([c] + y)
  {
    CollapseWordHead(c, x);
    CollapseWordHead(c, y);
  }

  /** A run of whitespace collapses like a single space, wherever it is. */
  lemma {:induction false} CollapseRun(p: string, w: string, q: string)
    requires w != [] && AllSpace(w)
    ensures CollapseSpaces(p + (w + q)) == CollapseSpaces(p + (" " + q))
    decreases |p|
  {
    if AllSpace(p) {
      CollapseRunAllSpace(p, w, q);
    } else {
      var p' := p[1..];
      ConsSplit(p, w + q);
      ConsSplit(p, " " + q);
      if IsSpace(p[0]) {
        ConsSplit(p, []);
        assert p + [] == p;
        AllSpaceCons(p[0], p');
        CollapseRun(StripLeft(p'), w, q);
        CollapseRunSpaceHead(p[0], p', w + q, " " + q);
      } else {
        CollapseRun(p', w, q);
        CollapseRunWordHead(p[0], p' + (w + q), p' + (" " + q));
      }
    }
  }

  lemma MaskAppend(a: string, b: string)
    ensures Mask(a + b) == Mask(a) + Mask(b)
  {
    assert |Mask(a + b)| == |Mask(a) + Mask(b)|;
    forall i | 0 <= i < |a + b| ensures Mask(a + b)[i] == (Mask(a) + Mask(b))[i] {
      if i < |a| {
        assert (a + b)[i] == a[i];
      } else {
        assert (a + b)[i] == b[i - |a|];
      }
    }
  }

  lemma MaskOfSeparators(x: string)
    requires forall i | 0 <= i < |x| :: IsSeparator(x[i])
    ensures AllSpace(Mask(x))
  {
    forall i | 0 <= i < |x| ensures IsSpace(Mask(x)[i]) {
      assert Mask(x)[i] == ReplaceChar(LowerChar(x[i]));
    }
  }

  /** Titles that differ only in the run of separators between two parts,
      as "n8n   gmail" and "n8n--gmail", normalise alike. */
  lemma SeparatorRunsNormalizeAlike(a: string, x: string, y: string, b: string)
    requires x != [] && y != []
    requires forall i | 0 <= i < |x| :: IsSeparator(x[i])
    requires forall i | 0 <= i < |y| :: IsSeparator(y[i])
    ensures Normalize(a + x + b) == Normalize(a + y + b)
  {
    MaskAppend(a, x);
    MaskAppend(a + x, b);
    MaskAppend(a, y);
    MaskAppend(a + y, b);
    MaskOfSeparators(x);
    MaskOfSeparators(y);
    var ma, mb := Mask(a), Mask(b);
    CollapseRun(ma, Mask(x), mb);
    CollapseRun(ma, Mask(y), mb);
    ConcatAssoc(ma, Mask(x), mb);
    ConcatAssoc(ma, Mask(y), mb);
  }

  /** Titles that differ only in letter case normalise alike. */
  lemma CaseDoesNotMatter(a: string, b: string)
    requires Lower(a) == Lower(b)
    ensures Normalize(a) == Normalize(b)
  {
  }

  lemma NormalExample()
    ensures IsNormal("n8n gmail")
    ensures Normalize("n8n gmail") == "n8n gmail"
  {
    assert IsNormal("n8n gmail");
    NormalizeFixesNormal("n8n gmail");
  }

  lemma MaskExample()
    ensures Mask("N8N Gmail!!") == "n8n gmail" + "  "
  {
  }

  lemma StripExample()
    ensures Strip("n8n gmail" + " ") == "n8n gmail"
  {
    assert StripRight("n8n gmail" + " ") == StripRight("n8n gmail");
  }

  /** Whitespace after a normal text collapses to one trailing space. */
  lemma CollapseTrailing(p: string, w: string)
    requires IsNormal(p) && p != [] && w != [] && AllSpace(w)
    ensures CollapseSpaces(p + w) == p + " "
  {
    var c := p + " ";
    assert p + (w + []) == p + w && p + (" " + []) == c;
    CollapseRun(p, w, []);
    assert WordsAndSpaces(c);
    forall i | 0 <= i < |c| - 1 ensures !(c[i] == ' ' && c[i + 1] == ' ') {
      if i < |p| - 1 {
        assert c[i] == p[i] && c[i + 1] == p[i + 1];
      } else {
        assert c[i] == p[|p| - 1];
      }
    }
    CollapseFixed(c);
  }

  lemma SpacedExample()
    ensures Normalize("n8n   gmail") == "n8n gmail"
  {
    assert Normalize("n8n   gmail") == Normalize("n8n gmail") by {
      assert "n8n   gmail" == "n8n" + "   " + "gmail";
      assert "n8n gmail" == "n8n" + " " + "gmail";
      SeparatorRunsNormalizeAlike("n8n", "   ", " ", "gmail");
    }
    NormalExample();
  }

  lemma ShoutedExample()
    ensures Normalize("N8N Gmail!!") == "n8n gmail"
  {
    MaskExample();
    NormalExample();
    CollapseTrailing("n8n gmail", "  ");
    StripExample();
  }

  /** "N8N Gmail!!" and "n8n   gmail" both normalise to "n8n gmail". */
  lemma NormalizeExample()
    ensures Normalize("N8N Gmail!!") == "n8n gmail"
    ensures Normalize("n8n   gmail") == "n8n gmail"
  {
    SpacedExample();
    ShoutedExample();
  }
}
