/** HTML entity decoding applied to every question text and option
    (backend/server.js:38-40), and an escaper for exactly the five
    characters the decoder handles, to state what decoding undoes. */
module Entities {

  const Quot := "&quot;"
  const Amp := "&amp;"
  const Apos := "&#039;"
  const Lt := "&lt;"
  const Gt := "&gt;"

  /** A global, non-overlapping, left-to-right literal replacement, as
      `String.prototype.replace` with a `/g` regular expression: a match is
      replaced and scanning resumes after it; replaced text is not rescanned. */
  function ReplaceAll(s: string, pat: string, rep: string): (r: string)
    requires |pat| > 0
    ensures |rep| <= |pat| ==> |r| <= |s|
    decreases |s|
  {
    if |s| < |pat| then s
    else if s[..|pat|] == pat then rep + ReplaceAll(s[|pat|..], pat, rep)
    else [s[0]] + ReplaceAll(s[1..], pat, rep)
  }

  /** The five replacements, in the order the source chains them. */
  function DecodeHTMLEntities(text: string): (r: string)
    ensures |r| <= |text|
  {
    var s1 := ReplaceAll(text, Quot, "\"");
    var s2 := ReplaceAll(s1, Amp, "&");
    var s3 := ReplaceAll(s2, Apos, "'");
    var s4 := ReplaceAll(s3, Lt, "<");
    ReplaceAll(s4, Gt, ">")
  }

  /** Text without the pattern's first character has no match and is
      returned unchanged. */
  lemma {:induction false} NoMatchUnchanged(s: string, pat: string, rep: string)
    requires |pat| > 0 && pat[0] !in s
    ensures ReplaceAll(s, pat, rep) == s
    decreases |s|
  {
    if |s| >= |pat| {
      assert s[..|pat|][0] == s[0];
      assert pat[0] !in s[1..];
      NoMatchUnchanged(s[1..], pat, rep);
      assert s == [s[0]] + s[1..];
    }
  }

  /** Text without an ampersand goes through all five stages unchanged. */
  lemma DecodeWithoutAmpersand(text: string)
    requires '&' !in text
    ensures DecodeHTMLEntities(text) == text
  {
    NoMatchUnchanged(text, Quot, "\"");
    NoMatchUnchanged(text, Amp, "&");
    NoMatchUnchanged(text, Apos, "'");
    NoMatchUnchanged(text, Lt, "<");
    NoMatchUnchanged(text, Gt, ">");
  }

  // ---------------------------------------------------------------------
  // Escaping, and what one decoding stage does to escaped text.

  /** The five characters the decoder produces. */
  const Specials: set<char> := {'"', '&', '\'', '<', '>'}

  /** The entity the decoder turns back into the character `c`. */
  function EntityFor(c: char): (e: string)
    requires c in Specials
    ensures |e| >= 4 && e[0] == '&' && '&' !in e[1..]
  {
    if c == '"' then assert Quot[1..] == "quot;"; Quot
    else if c == '&' then assert Amp[1..] == "amp;"; Amp
    else if c == '\'' then assert Apos[1..] == "#039;"; Apos
    else if c == '<' then assert Lt[1..] == "lt;"; Lt
    else assert Gt[1..] == "gt;"; Gt
  }

  /** No entity is a prefix of another: they differ in their second character. */
  lemma EntitiesDiffer(c: char, d: char)
    requires c in Specials && d in Specials && c != d
    ensures EntityFor(c)[1] != EntityFor(d)[1]
  {
  }

  /** One character, escaped when it is in `k`. */
  function Piece(ch: char, k: set<char>): string
    requires k <= Specials
  {
    if ch in k then EntityFor(ch) else [ch]
  }

  /** `s` with exactly the characters in `k` escaped; the decoding stages
      move from one such text to the next. */
  function EscapeSome(s: string, k: set<char>): (r: string)
    requires k <= Specials
    ensures |r| >= |s|
  {
    if s == [] then [] else Piece(s[0], k) + EscapeSome(s[1..], k)
  }

  /** HTML escaping of the five characters the decoder handles. */
  function EncodeEntities(s: string): (r: string)
    ensures |r| >= |s|
  {
    EscapeSome(s, Specials)
  }

  predicate StartsWith(t: string, w: string) {
    |w| <= |t| && t[..|w|] == w
  }

  /** `w` occurs nowhere in `t`. */
  predicate FreeOf(t: string, w: string) {
    forall i :: 0 <= i <= |t| ==> !StartsWith(t[i..], w)
  }

  lemma StartsWithCons(c0: char, rest: string, w: string)
    requires |w| > 0
    ensures StartsWith([c0] + rest, w) <==> c0 == w[0] && StartsWith(rest, w[1..])
  {
    var t := [c0] + rest;
    assert t[1..] == rest;
    if |w| <= |t| {
      assert t[..|w|] == [c0] + rest[..|w| - 1];
      assert w == [w[0]] + w[1..];
    }
  }

  /** A character that does not start a match is copied through. */
  lemma NoPrefixPass(c0: char, y: string, pat: string, rep: string)
    requires |pat| > 0 && !StartsWith([c0] + y, pat)
    ensures ReplaceAll([c0] + y, pat, rep) == [c0] + ReplaceAll(y, pat, rep)
  {
    var t := [c0] + y;
    assert t[1..] == y;
  }

  /** Text that cannot start a match passes through a stage unchanged. */
  lemma {:induction false} PassThrough(w: string, y: string, pat: string, rep: string)
    requires |pat| > 0 && pat[0] == '&' && '&' !in w
    ensures ReplaceAll(w + y, pat, rep) == w + ReplaceAll(y, pat, rep)
    decreases |w|
  {
    if w == [] {
      assert w + y == y;
    } else {
      var rest := w[1..];
      calc {
        ReplaceAll(w + y, pat, rep);
      == { assert w + y == [w[0]] + (rest + y); }
        ReplaceAll([w[0]] + (rest + y), pat, rep);
      == { StartsWithCons(w[0], rest + y, pat); NoPrefixPass(w[0], rest + y, pat, rep); }
        [w[0]] + ReplaceAll(rest + y, pat, rep);
      == { PassThrough(rest, y, pat, rep); }
        [w[0]] + (rest + ReplaceAll(y, pat, rep));
      == { assert w == [w[0]] + rest; }
        w + ReplaceAll(y, pat, rep);
      }
    }
  }

  lemma MatchAtFront(y: string, pat: string, rep: string)
    requires |pat| > 0
    ensures ReplaceAll(pat + y, pat, rep) == rep + ReplaceAll(y, pat, rep)
  {
    var s := pat + y;
    assert s[..|pat|] == pat;
    assert s[|pat|..] == y;
  }

  /** An entity other than the pattern is copied through unchanged. */
  lemma OtherEntity(e: string, y: string, pat: string, rep: string)
    requires |pat| >= 2 && |e| >= 2 && pat[0] == '&' && e[0] == '&'
    requires '&' !in e[1..] && e[1] != pat[1]
    ensures ReplaceAll(e + y, pat, rep) == e + ReplaceAll(y, pat, rep)
  {
    var s := e + y;
    if |s| < |pat| {
      assert ReplaceAll(s, pat, rep) == s;
      assert ReplaceAll(y, pat, rep) == y;
    } else {
      calc {
        ReplaceAll(s, pat, rep);
      == { assert s[..|pat|][1] == e[1]; }
        [s[0]] + ReplaceAll(s[1..], pat, rep);
      == { assert s[1..] == e[1..] + y; }
        [e[0]] + ReplaceAll(e[1..] + y, pat, rep);
      == { PassThrough(e[1..], y, pat, rep); }
        [e[0]] + (e[1..] + ReplaceAll(y, pat, rep));
      == { assert e == [e[0]] + e[1..]; }
        e + ReplaceAll(y, pat, rep);
      }
    }
  }

  /** Escaping never creates text free of `&` out of nothing: if the
      escaped form starts with an `&`-free `w`, so does the text. */
  lemma {:induction false} PrefixThroughEscape(t: string, k: set<char>, w: string)
    requires k <= Specials && '&' !in w
    ensures StartsWith(EscapeSome(t, k), w) ==> StartsWith(t, w)
    decreases |w|
  {
    if w != [] && StartsWith(EscapeSome(t, k), w) {
      assert t != [];
      var esc := EscapeSome(t, k);
      var tail := EscapeSome(t[1..], k);
      assert esc == Piece(t[0], k) + tail;
      assert esc[0] == w[0];
      assert t[0] !in k;
      assert esc == [t[0]] + tail;
      StartsWithCons(t[0], tail, w);
      PrefixThroughEscape(t[1..], k, w[1..]);
      StartsWithCons(t[0], t[1..], w);
      assert t == [t[0]] + t[1..];
    }
  }

  /** One stage on the first escaped character: the entity of `c` turns
      back into `c`; any other character or entity is copied through. */
  lemma HeadStage(c0: char, tail: string, k: set<char>, c: char)
    requires k <= Specials && c in k
    requires c0 == '&' && '&' !in k ==> !StartsWith(tail, EntityFor(c)[1..])
    ensures ReplaceAll(Piece(c0, k) + tail, EntityFor(c), [c])
         == Piece(c0, k - {c}) + ReplaceAll(tail, EntityFor(c), [c])
  {
    var e := EntityFor(c);
    if c0 in k {
      if c0 == c {
        MatchAtFront(tail, e, [c]);
      } else {
        EntitiesDiffer(c0, c);
        OtherEntity(EntityFor(c0), tail, e, [c]);
      }
    } else {
      StartsWithCons(c0, tail, e);
      NoPrefixPass(c0, tail, e, [c]);
    }
  }

  lemma FreeOfTail(s: string, w: string)
    requires |s| > 0 && |w| > 0 && FreeOf(s, w)
    ensures FreeOf(s[1..], w)
    ensures s[0] == w[0] ==> !StartsWith(s[1..], w[1..])
  {
    forall i | 0 <= i <= |s[1..]| ensures !StartsWith(s[1..][i..], w) {
      assert s[1..][i..] == s[i + 1..];
    }
    assert s[0..] == [s[0]] + s[1..];
    StartsWithCons(s[0], s[1..], w);
  }

  /** One `replace` call on a text with the characters `k` escaped turns
      the entity of `c` back into `c` and leaves the rest escaped. When `&`
      is no longer escaped, a literal `&` followed by the rest of the
      entity's name would be decoded too, so the text must be free of it. */
  lemma {:induction false} StageOnEscaped(s: string, k: set<char>, c: char)
    requires k <= Specials && c in k
    requires '&' in k || FreeOf(s, EntityFor(c))
    ensures ReplaceAll(EscapeSome(s, k), EntityFor(c), [c]) == EscapeSome(s, k - {c})
    decreases |s|
  {
    if s != [] {
      var e := EntityFor(c);
      var tail := EscapeSome(s[1..], k);
      if '&' !in k {
        FreeOfTail(s, e);
        if s[0] == '&' {
          PrefixThroughEscape(s[1..], k, e[1..]);
        }
      }
      StageOnEscaped(s[1..], k, c);
      HeadStage(s[0], tail, k, c);
    }
  }

  /** Text with none of the characters `k` is its own escaped form. */
  lemma {:induction false} EscapePlain(s: string, k: set<char>)
    requires k <= Specials && forall i :: 0 <= i < |s| ==> s[i] !in k
    ensures EscapeSome(s, k) == s
  {
    if s != [] {
      EscapePlain(s[1..], k);
      assert s == [s[0]] + s[1..];
    }
  }

  /** Decoding undoes the escaping of every text in which none of
      `&#039;`, `&lt;`, `&gt;` occurs. Such an occurrence is escaped to
      `&amp;…;`, which the second stage turns back into the entity and a
      later stage then decodes. `&quot;` and `&amp;` are safe because
      their stages come first. */
  lemma DecodeEncodeRoundTrip(s: string)
    requires FreeOf(s, Apos) && FreeOf(s, Lt) && FreeOf(s, Gt)
    ensures DecodeHTMLEntities(EncodeEntities(s)) == s
  {
    var k1 := {'&', '\'', '<', '>'};
    var k2 := {'\'', '<', '>'};
    var k3 := {'<', '>'};
    var k4 := {'>'};
    var s1 := ReplaceAll(EncodeEntities(s), Quot, "\"");
    assert s1 == EscapeSome(s, k1) by {
      assert EntityFor('"') == Quot && Specials - {'"'} == k1;
      StageOnEscaped(s, Specials, '"');
    }
    var s2 := ReplaceAll(s1, Amp, "&");
    assert s2 == EscapeSome(s, k2) by {
      assert EntityFor('&') == Amp && k1 - {'&'} == k2;
      StageOnEscaped(s, k1, '&');
    }
    var s3 := ReplaceAll(s2, Apos, "'");
    assert s3 == EscapeSome(s, k3) by {
      assert EntityFor('\'') == Apos && k2 - {'\''} == k3;
      StageOnEscaped(s, k2, '\'');
    }
    var s4 := ReplaceAll(s3, Lt, "<");
    assert s4 == EscapeSome(s, k4) by {
      assert EntityFor('<') == Lt && k3 - {'<'} == k4;
      StageOnEscaped(s, k3, '<');
    }
    assert ReplaceAll(s4, Gt, ">") == s by {
      assert EntityFor('>') == Gt && k4 - {'>'} == {};
      StageOnEscaped(s, k4, '>');
      EscapePlain(s, {});
    }
  }

  /** An ampersand that starts no decodable entity survives the round trip. */
  lemma AmpersandSurvives()
    ensures DecodeHTMLEntities(EncodeEntities("AT&T")) == "AT&T"
  {
    var s := "AT&T";
    forall w, i | |w| >= 3 && w[0] == '&' && 0 <= i <= |s| ensures !StartsWith(s[i..], w) {
      if i != 2 && i < |s| {
        assert s[i..][0] == s[i];
      }
    }
    DecodeEncodeRoundTrip(s);
  }

  // ---------------------------------------------------------------------
  // The order of the stages, on concrete texts.

  lemma AmpLtStages()
    ensures ReplaceAll("&amp;lt;", Quot, "\"") == "&amp;lt;"
    ensures ReplaceAll("&amp;lt;", Amp, "&") == "&lt;"
    ensures ReplaceAll("&lt;", Apos, "'") == "&lt;"
    ensures ReplaceAll("&lt;", Lt, "<") == "<"
    ensures ReplaceAll("<", Gt, ">") == "<"
  {
    assert EntityFor('&') == Amp && EntityFor('<') == Lt;
    assert "&amp;lt;" == Amp + "lt;";
    OtherEntity(Amp, "lt;", Quot, "\"");
    MatchAtFront("lt;", Amp, "&");
    assert "&" + "lt;" == Lt + "";
    OtherEntity(Lt, "", Apos, "'");
    MatchAtFront("", Lt, "<");
  }

  lemma QuotStageOnAmpQuot()
    ensures ReplaceAll("&amp;quot;", Quot, "\"") == "&amp;quot;"
  {
    assert EntityFor('&') == Amp;
    assert "&amp;quot;" == Amp + "quot;";
    OtherEntity(Amp, "quot;", Quot, "\"");
  }

  lemma AmpStageOnAmpQuot()
    ensures ReplaceAll("&amp;quot;", Amp, "&") == "&quot;"
  {
    assert "&amp;quot;" == Amp + "quot;";
    MatchAtFront("quot;", Amp, "&");
  }

  lemma QuotStages()
    ensures ReplaceAll("&quot;", Apos, "'") == "&quot;"
    ensures ReplaceAll("&quot;", Lt, "<") == "&quot;"
    ensures ReplaceAll("&quot;", Gt, ">") == "&quot;"
  {
    assert EntityFor('"') == Quot;
    assert "&quot;" == Quot + "";
    OtherEntity(Quot, "", Apos, "'");
    OtherEntity(Quot, "", Lt, "<");
    OtherEntity(Quot, "", Gt, ">");
  }

  /** The fixed order makes `&amp;` feed the later stages: an escaped
      "&lt;" comes back as "<", while "&amp;quot;" stops at "&quot;". */
  lemma OrderMatters()
    ensures DecodeHTMLEntities("&amp;lt;") == "<"
    ensures DecodeHTMLEntities("&amp;quot;") == "&quot;"
  {
    AmpLtStages();
    QuotStageOnAmpQuot();
    AmpStageOnAmpQuot();
    QuotStages();
  }

  /** A text containing `&lt;` does not survive the round trip: it is
      escaped to "&amp;lt;", which decodes to "<". */
  lemma EscapedLessThan()
    ensures EncodeEntities("&lt;") == "&amp;lt;"
    ensures DecodeHTMLEntities(EncodeEntities("&lt;")) == "<"
  {
    assert EncodeEntities("&lt;") == "&amp;lt;" by {
      var s := "&lt;";
      assert s[0] == '&' && s[1..] == "lt;";
      assert Piece('&', Specials) == Amp;
      EscapePlain("lt;", Specials);
      calc {
        EscapeSome(s, Specials);
        Piece('&', Specials) + EscapeSome("lt;", Specials);
        Amp + "lt;";
      }
    }
    OrderMatters();
  }
}
