/** The identifier slugger of backend/api/routes_ai.py and the validator of
    backend/api/routes_data_sources.py that its output has to satisfy. */
module Slug {

  datatype Result<+T> = Ok(value: T) | Rejected

  predicate IsLower(c: char) { 'a' <= c <= 'z' }
  predicate IsDigit(c: char) { '0' <= c <= '9' }
  predicate IsAlpha(c: char) { IsLower(c) || 'A' <= c <= 'Z' }
  predicate IsAlnum(c: char) { IsAlpha(c) || IsDigit(c) }
  predicate IsWord(c: char) { IsLower(c) || IsDigit(c) || c == '_' }

  predicate AllWord(s: string) { forall i :: 0 <= i < |s| ==> IsWord(s[i]) }

  predicate DoubleAt(s: string, i: nat)
    requires i + 1 < |s|
  {
    s[i] == '_' && s[i + 1] == '_'
  }

  predicate NoDouble(s: string) { forall i :: 0 <= i < |s| - 1 ==> !DoubleAt(s, i) }

  /** `str.strip().lower()`: Unicode case tables are not modelled, so it is any
      function that leaves text over [a-z0-9_] alone. */
  type Fold = f: string -> string | forall s :: AllWord(s) ==> f(s) == s
    witness (s: string) => s

  // ---------------------------------------------------------------------------
  // Regular-expression and string helpers
  // ---------------------------------------------------------------------------

  /** The two character classes whose runs are substituted: `[^a-z0-9_]` and `_`. */
  datatype Class = Foreign | Underscore

  predicate Matches(p: Class, c: char) { if p.Foreign? then !IsWord(c) else c == '_' }

  function RunLength(s: string, p: Class): (n: nat)
    ensures n <= |s|
    ensures forall i :: 0 <= i < n ==> Matches(p, s[i])
    ensures n < |s| ==> !Matches(p, s[n])
  {
    if s == "" || !Matches(p, s[0]) then 0 else 1 + RunLength(s[1..], p)
  }

  /** `re.sub(r"p+", "_", s)`: every maximal run of characters of the class becomes one underscore. */
  function SubRuns(s: string, p: Class): string
    decreases |s|
  {
    if s == "" then ""
    else if !Matches(p, s[0]) then [s[0]] + SubRuns(s[1..], p)
    else "_" + SubRuns(s[RunLength(s, p)..], p)
  }

  /** Length left after dropping trailing underscores. */
  function KeptLength(s: string): (n: nat)
    ensures n <= |s|
    ensures n > 0 ==> s[n - 1] != '_'
    ensures forall i :: n <= i < |s| ==> s[i] == '_'
    decreases |s|
  {
    if s != "" && s[|s| - 1] == '_' then KeptLength(s[..|s| - 1]) else |s|
  }

  function LStrip(s: string): string { s[RunLength(s, Underscore)..] }

  function RStrip(s: string): string { s[..KeptLength(s)] }

  function Strip(s: string): string { RStrip(LStrip(s)) }

  function Take50(s: string): string { if |s| <= 50 then s else s[..50] }

  // ---------------------------------------------------------------------------
  // The slugger
  // ---------------------------------------------------------------------------

  /** The two substitutions after folding: foreign characters to underscores, underscores squeezed and trimmed. */
  function Clean(folded: string): string {
    Strip(SubRuns(SubRuns(folded, Foreign), Underscore))
  }

  /** The default for an empty text, and a letter in front of a digit. */
  function Lettered(clean: string, prefix: string): string
    requires prefix != ""
  {
    var text := if clean == "" then prefix else clean;
    if IsDigit(text[0]) then "s_" + text else text
  }

  /** A text too short for a slug gets the default in front. */
  function Lengthened(text: string, prefix: string): string {
    if |text| < 3 then Strip(prefix + "_" + text) else text
  }

  /** Everything from the folded text to the repair branches. */
  function Shaped(folded: string, prefix: string): string
    requires prefix != ""
  {
    RStrip(Take50(Lengthened(Lettered(Clean(folded), prefix), prefix)))
  }

  /** The repair branches and the final cut. */
  function Repaired(shaped: string, prefix: string): string
    requires prefix != ""
  {
    var text := if shaped == "" then prefix else shaped;
    var text := if !IsAlpha(text[0]) then "s" + text else text;
    var text := if !IsAlnum(text[|text| - 1]) then
                  (if text[..|text| - 1] != "" then text[..|text| - 1] + "x" else prefix + "x")
                else text;
    Take50(text)
  }

  function Slugify(raw: string, prefix: string, fold: Fold): string
    requires prefix != ""
  {
    Repaired(Shaped(fold(raw), prefix), prefix)
  }

  /** The language of `^[a-z][a-z0-9_]{1,48}[a-z0-9]$`. */
  predicate ValidSlug(s: string) {
    3 <= |s| <= 50 && AllWord(s) && IsLower(s[0]) && s[|s| - 1] != '_'
  }

  function ValidateSlug(raw: string, fold: Fold): Result<string> {
    var value := fold(raw);
    if ValidSlug(value) then Ok(value) else Rejected
  }

  // ---------------------------------------------------------------------------
  // Shape of the cleaned text
  // ---------------------------------------------------------------------------

  predicate Canonical(s: string) {
    AllWord(s) && NoDouble(s) && (s != "" ==> s[0] != '_' && s[|s| - 1] != '_')
  }

  lemma {:induction false} SubForeignIsWord(s: string)
    ensures AllWord(SubRuns(s, Foreign))
    decreases |s|
  {
    if s != "" {
      if !IsWord(s[0]) { SubForeignIsWord(s[RunLength(s, Foreign)..]); } else { SubForeignIsWord(s[1..]); }
    }
  }

  lemma {:induction false} SqueezeShape(s: string)
    requires AllWord(s)
    ensures var t := SubRuns(s, Underscore);
            AllWord(t) && NoDouble(t) && (t == "" <==> s == "") && (t != "" ==> t[0] == s[0])
    decreases |s|
  {
    if s != "" {
      var rest := if s[0] == '_' then s[RunLength(s, Underscore)..] else s[1..];
      SqueezeShape(rest);
      PrependNoDouble(s[0], SubRuns(rest, Underscore));
    }
  }

  lemma PrependNoDouble(c: char, u: string)
    requires NoDouble(u) && (c == '_' && u != "" ==> u[0] != '_')
    ensures NoDouble([c] + u)
  {
    forall i | 0 <= i < |u| ensures !DoubleAt([c] + u, i) {
      if i > 0 { assert !DoubleAt(u, i - 1); }
    }
  }

  lemma {:induction false} SqueezeKeeps(s: string)
    ensures var t := SubRuns(s, Underscore);
            |t| <= |s| && (t == "" <==> s == "") && ('_' in s ==> '_' in t)
            && (s != "" && s[|s| - 1] != '_' ==> t[|t| - 1] == s[|s| - 1])
    decreases |s|
  {
    if s != "" {
      SqueezeKeeps(if s[0] == '_' then s[RunLength(s, Underscore)..] else s[1..]);
    }
  }

  lemma {:induction false} SubRunsNothing(s: string, p: Class)
    requires forall i :: 0 <= i < |s| && Matches(p, s[i]) ==> s[i] == '_' && (i + 1 < |s| ==> !Matches(p, s[i + 1]))
    ensures SubRuns(s, p) == s
    decreases |s|
  {
    if s != "" {
      SubRunsNothing(s[1..], p);
      if Matches(p, s[0]) {
        assert RunLength(s, p) == 1;
      }
    }
  }

  lemma SliceNoDouble(s: string, lo: nat, hi: nat)
    requires lo <= hi <= |s| && NoDouble(s)
    ensures NoDouble(s[lo..hi])
  {
    forall i | 0 <= i < |s[lo..hi]| - 1 ensures !DoubleAt(s[lo..hi], i) {
      assert !DoubleAt(s, lo + i);
    }
  }

  lemma StripIsCanonical(b: string)
    requires AllWord(b) && NoDouble(b)
    ensures Canonical(Strip(b))
  {
    var lo := RunLength(b, Underscore);
    var l := b[lo..];
    assert l == b[lo..|b|];
    SliceNoDouble(b, lo, |b|);
    var t := l[..KeptLength(l)];
    SliceNoDouble(l, 0, |t|);
    assert Strip(b) == t == l[0..|t|];
  }

  lemma CleanCanonical(folded: string)
    ensures Canonical(Clean(folded))
  {
    SubForeignIsWord(folded);
    SqueezeShape(SubRuns(folded, Foreign));
    StripIsCanonical(SubRuns(SubRuns(folded, Foreign), Underscore));
  }

  lemma CleanFixes(s: string)
    requires Canonical(s)
    ensures Clean(s) == s
  {
    SubRunsNothing(s, Foreign);
    forall i | 0 <= i < |s| - 1 && s[i] == '_' ensures s[i + 1] != '_' {
      assert !DoubleAt(s, i);
    }
    SubRunsNothing(s, Underscore);
  }

  // ---------------------------------------------------------------------------
  // The cleaned text is the words of the input joined by single underscores
  // ---------------------------------------------------------------------------

  predicate InWord(c: char) { IsLower(c) || IsDigit(c) }

  function Flush(cur: string): seq<string> { if cur == "" then [] else [cur] }

  /** The maximal runs over [a-z0-9] of cur + s, where cur is the run being read. */
  function Words(s: string, cur: string): seq<string> {
    if s == "" then Flush(cur)
    else if InWord(s[0]) then Words(s[1..], cur + [s[0]])
    else Flush(cur) + Words(s[1..], "")
  }

  function Join(words: seq<string>): string {
    if words == [] then ""
    else if |words| == 1 then words[0]
    else words[0] + "_" + Join(words[1..])
  }

  lemma {:induction false} SkipSeparators(s: string, n: nat, cur: string)
    requires n <= |s| && forall i :: 0 <= i < n ==> !InWord(s[i])
    ensures Words(s, cur) == if n == 0 then Words(s, cur) else Flush(cur) + Words(s[n..], "")
    decreases n
  {
    if n > 0 {
      SkipSeparators(s[1..], n - 1, "");
      assert s[1..][n - 1..] == s[n..];
    }
  }

  lemma {:induction false} SubRunsKeepsWords(s: string, p: Class, cur: string)
    ensures Words(SubRuns(s, p), cur) == Words(s, cur)
    decreases |s|
  {
    if s != "" {
      if Matches(p, s[0]) {
        var n := RunLength(s, p);
        SkipSeparators(s, n, cur);
        SubRunsKeepsWords(s[n..], p, "");
        assert ("_" + SubRuns(s[n..], p))[1..] == SubRuns(s[n..], p);
      } else {
        SubRunsKeepsWords(s[1..], p, if InWord(s[0]) then cur + [s[0]] else "");
      }
    }
  }

  lemma {:induction false} DropTailKeepsWords(s: string, k: nat, cur: string)
    requires k <= |s| && forall i :: k <= i < |s| ==> s[i] == '_'
    ensures Words(s[..k], cur) == Words(s, cur)
    decreases |s|
  {
    if k == 0 {
      SkipSeparators(s, |s|, cur);
      assert s[|s|..] == "";
    } else {
      assert s[..k][1..] == s[1..][..k - 1];
      DropTailKeepsWords(s[1..], k - 1, if InWord(s[0]) then cur + [s[0]] else "");
    }
  }

  lemma {:induction false} JoinedWords(t: string, cur: string)
    requires AllWord(t) && NoDouble(t) && (t != "" ==> t[|t| - 1] != '_')
    requires cur == "" && t != "" ==> t[0] != '_'
    ensures Join(Words(t, cur)) == cur + t
    ensures cur + t != "" ==> Words(t, cur) != []
    decreases |t|
  {
    if t != "" {
      var rest := t[1..];
      assert rest == t[1..|t|];
      SliceNoDouble(t, 1, |t|);
      if InWord(t[0]) {
        JoinedWords(rest, cur + [t[0]]);
        assert Words(t, cur) == Words(rest, cur + [t[0]]);
        assert cur + t == cur + [t[0]] + rest;
      } else {
        assert !DoubleAt(t, 0);
        JoinedWords(rest, "");
        JoinMore(cur, Words(rest, ""));
        assert Words(t, cur) == [cur] + Words(rest, "");
        assert cur + "_" + rest == cur + t;
      }
    }
  }

  lemma JoinMore(word: string, more: seq<string>)
    requires more != []
    ensures Join([word] + more) == word + "_" + Join(more)
  {
    assert ([word] + more)[1..] == more;
  }

  lemma StripKeepsWords(b: string)
    ensures Words(Strip(b), "") == Words(b, "")
  {
    var n := RunLength(b, Underscore);
    SkipSeparators(b, n, "");
    if n == 0 { assert b[n..] == b; }
    DropTailKeepsWords(b[n..], KeptLength(b[n..]), "");
  }

  /** Whatever the raw text is, cleaning keeps its words, in order, and nothing else. */
  lemma CleanIsJoinedWords(folded: string)
    ensures Clean(folded) == Join(Words(folded, ""))
  {
    var a := SubRuns(folded, Foreign);
    var b := SubRuns(a, Underscore);
    SubRunsKeepsWords(folded, Foreign, "");
    SubRunsKeepsWords(a, Underscore, "");
    StripKeepsWords(b);
    CleanCanonical(folded);
    JoinedWords(Clean(folded), "");
  }

  // ---------------------------------------------------------------------------
  // Main results
  // ---------------------------------------------------------------------------

  /** Dropping trailing underscores takes at most one where no two are adjacent. */
  lemma RStripOne(s: string)
    ensures s != "" && s[|s| - 1] != '_' ==> RStrip(s) == s
    ensures |s| >= 2 && s[|s| - 2] != '_' ==> |RStrip(s)| >= |s| - 1
  {
  }

  /** The cut to 50 characters keeps a slug-shaped text a slug. */
  lemma CutIsValid(text: string)
    requires |text| >= 3 && AllWord(text) && IsLower(text[0]) && text[|text| - 1] != '_'
    requires |text| > 50 ==> !DoubleAt(text, 48)
    ensures ValidSlug(RStrip(Take50(text)))
    ensures NoDouble(text) ==> NoDouble(RStrip(Take50(text)))
  {
    var cut := Take50(text);
    RStripOne(cut);
    if NoDouble(text) {
      assert RStrip(cut) == text[0..|RStrip(cut)|];
      SliceNoDouble(text, 0, |RStrip(cut)|);
    }
  }

  predicate Framed(s: string) { s != "" && AllWord(s) && IsLower(s[0]) && s[|s| - 1] != '_' }

  lemma LetteredIsFramed(clean: string, prefix: string)
    requires Canonical(clean) && ValidSlug(prefix)
    ensures Framed(Lettered(clean, prefix))
    ensures clean != "" || NoDouble(prefix) ==> NoDouble(Lettered(clean, prefix))
    ensures |Lettered(clean, prefix)| > 50 ==> NoDouble(Lettered(clean, prefix))
  {
    if clean != "" && IsDigit(clean[0]) { LetterBefore(clean); }
  }

  lemma LetterBefore(clean: string)
    requires Canonical(clean) && clean != ""
    ensures Framed("s_" + clean) && NoDouble("s_" + clean)
  {
    var s := "s_" + clean;
    assert s == "s" + "_" + clean;
    JoinNoDouble("s", clean);
    assert s[|s| - 1] == clean[|clean| - 1];
  }

  lemma LengthenedIsFramed(text: string, prefix: string)
    requires Framed(text) && ValidSlug(prefix) && (|text| > 50 ==> NoDouble(text))
    ensures var t := Lengthened(text, prefix);
            Framed(t) && |t| >= 3 && (|t| > 50 ==> !DoubleAt(t, 48))
            && (NoDouble(prefix) && NoDouble(text) ==> NoDouble(t))
  {
    if |text| < 3 {
      var joined := prefix + "_" + text;
      JoinNoDouble(prefix, text);
      assert Lengthened(text, prefix) == joined by {
        assert LStrip(joined) == joined;
        RStripOne(joined);
      }
    }
  }

  /** Every branch result before the repairs is already a valid slug. */
  lemma ShapedIsValid(folded: string, prefix: string)
    requires ValidSlug(prefix)
    ensures ValidSlug(Shaped(folded, prefix))
    ensures NoDouble(prefix) ==> NoDouble(Shaped(folded, prefix))
  {
    CleanCanonical(folded);
    var lettered := Lettered(Clean(folded), prefix);
    LetteredIsFramed(Clean(folded), prefix);
    LengthenedIsFramed(lettered, prefix);
    CutIsValid(Lengthened(lettered, prefix));
  }

  lemma JoinNoDouble(a: string, b: string)
    requires a != "" && b != "" && a[|a| - 1] != '_' && b[0] != '_'
    ensures NoDouble(a) && NoDouble(b) ==> NoDouble(a + "_" + b)
    ensures forall i :: |a| - 1 <= i < |a| + 1 ==> !DoubleAt(a + "_" + b, i)
  {
    var j := a + "_" + b;
    if NoDouble(a) && NoDouble(b) {
      forall i | 0 <= i < |j| - 1 ensures !DoubleAt(j, i) {
        if i < |a| - 1 { assert !DoubleAt(a, i); }
        if i > |a| { assert !DoubleAt(b, i - |a| - 1); }
      }
    }
  }

  /** For every text and every valid default prefix the slug passes the data-source
      validator unchanged, and the repair branches change nothing. */
  lemma SlugAlwaysValid(raw: string, prefix: string, fold: Fold)
    requires ValidSlug(prefix)
    ensures ValidateSlug(Slugify(raw, prefix, fold), fold) == Ok(Slugify(raw, prefix, fold))
    ensures Slugify(raw, prefix, fold) == Shaped(fold(raw), prefix)
  {
    ShapedIsValid(fold(raw), prefix);
    NothingToRepair(Shaped(fold(raw), prefix), prefix);
  }

  /** The repair branches leave a valid slug alone. */
  lemma NothingToRepair(slug: string, prefix: string)
    requires prefix != "" && ValidSlug(slug)
    ensures Repaired(slug, prefix) == slug
  {
  }

  /** What the repairs do where something is left to repair: nothing becomes the default, a text that
      does not open with a letter gets one, and a last character that is neither letter nor digit
      becomes an "x". */
  lemma RepairsAre(body: string, c: char, prefix: string)
    requires prefix != "" && |body| <= 48
    ensures body != "" && IsAlpha(body[0]) && !IsAlnum(c) ==> Repaired(body + [c], prefix) == body + "x"
    ensures body != "" && !IsAlpha(body[0]) && IsAlnum(c) ==> Repaired(body + [c], prefix) == "s" + (body + [c])
    ensures Repaired("", prefix) == Repaired(prefix, prefix)
    ensures !IsAlnum(c) ==> Repaired([c], prefix) == "sx"
  {
    assert (body + [c])[..|body|] == body;
    assert ("s" + [c])[..1] == "s" && "s" + "x" == "sx";
  }

  /** Words that already join to a valid slug are the slug. */
  lemma SlugKeepsWords(raw: string, prefix: string, fold: Fold)
    requires ValidSlug(prefix) && ValidSlug(Join(Words(fold(raw), "")))
    ensures Slugify(raw, prefix, fold) == Join(Words(fold(raw), ""))
  {
    CleanIsJoinedWords(fold(raw));
    SlugAlwaysValid(raw, prefix, fold);
    RStripOne(Clean(fold(raw)));
  }

  /** What a text with these joined words is spelled as: the default if there are none, "s_" and the
      words if they open with a digit, the default and the words if they are too short. */
  function Spelled(words: string, prefix: string): string {
    if words == "" then prefix
    else if IsDigit(words[0]) then "s_" + words
    else if |words| < 3 then prefix + "_" + words
    else words
  }

  /** All of the text if it fits into fifty characters, else its first fifty, or forty-nine if an
      underscore would end it. */
  predicate CutFrom(slug: string, text: string) {
    if |text| <= 50 then slug == text
    else slug == if text[49] == '_' then text[..49] else text[..50]
  }

  lemma CutIs(text: string)
    requires |text| >= 3 && text[|text| - 1] != '_'
    requires |text| > 50 ==> !DoubleAt(text, 48)
    ensures CutFrom(RStrip(Take50(text)), text)
  {
    var cut := Take50(text);
    RStripOne(cut);
    if |text| > 50 && text[49] == '_' { assert RStrip(cut) == cut[..49] == text[..49]; }
  }

  lemma ShortIsJoined(text: string, prefix: string)
    requires Framed(text) && ValidSlug(prefix) && |text| < 3
    ensures Lengthened(text, prefix) == prefix + "_" + text
  {
    var joined := prefix + "_" + text;
    assert LStrip(joined) == joined;
    RStripOne(joined);
  }

  lemma SpelledIs(words: string, prefix: string)
    requires Canonical(words) && ValidSlug(prefix)
    ensures Lengthened(Lettered(words, prefix), prefix) == Spelled(words, prefix)
  {
    LetteredIsFramed(words, prefix);
    var text := Lettered(words, prefix);
    if |text| < 3 { ShortIsJoined(text, prefix); }
  }

  lemma ShapedOfWords(folded: string, prefix: string)
    requires ValidSlug(prefix)
    ensures CutFrom(Shaped(folded, prefix), Spelled(Join(Words(folded, "")), prefix))
  {
    var words := Clean(folded);
    CleanIsJoinedWords(folded);
    CleanCanonical(folded);
    LetteredIsFramed(words, prefix);
    LengthenedIsFramed(Lettered(words, prefix), prefix);
    SpelledIs(words, prefix);
    CutIs(Spelled(words, prefix));
  }

  /** The slug of any text is its words as spelled, and all that is ever lost is what lies beyond
      fifty characters and one underscore at the cut. */
  lemma SlugOfWords(raw: string, prefix: string, fold: Fold)
    requires ValidSlug(prefix)
    ensures CutFrom(Slugify(raw, prefix, fold), Spelled(Join(Words(fold(raw), "")), prefix))
  {
    SlugAlwaysValid(raw, prefix, fold);
    ShapedOfWords(fold(raw), prefix);
  }

  /** The slugger leaves a text alone exactly when it is a valid slug without adjacent underscores. */
  lemma SlugFixedPoints(s: string, prefix: string, fold: Fold)
    requires ValidSlug(prefix)
    ensures Slugify(s, prefix, fold) == s <==> ValidSlug(s) && NoDouble(s)
  {
    SlugAlwaysValid(s, prefix, fold);
    if ValidSlug(s) {
      if NoDouble(s) {
        CleanFixes(s);
        RStripOne(s);
      } else {
        CleanCanonical(s);
        SlugSqueezesDoubles(s, prefix);
      }
    }
  }

  /** A valid slug is cleaned to its squeezed form. */
  lemma CleanOfSlug(s: string)
    requires ValidSlug(s)
    ensures Clean(s) == Strip(SubRuns(s, Underscore))
  {
    SubRunsNothing(s, Foreign);
  }

  lemma SqueezedSlug(s: string)
    requires ValidSlug(s) && !NoDouble(s)
    ensures var b := SubRuns(s, Underscore);
            Canonical(b) && 3 <= |b| <= 50 && IsLower(b[0])
  {
    SqueezeShape(s);
    SqueezeKeeps(s);
    var b := SubRuns(s, Underscore);
    assert b[0] == s[0] && b[|b| - 1] == s[|s| - 1];
    var i :| 0 <= i < |s| - 1 && DoubleAt(s, i);
    assert s[i] == '_' && '_' in s && '_' in b;
  }

  lemma StripNothing(b: string)
    requires Canonical(b)
    ensures Strip(b) == b
  {
    if b != "" {
      assert LStrip(b) == b;
      RStripOne(b);
    }
  }

  /** A clean text of a slug's length that opens with a letter goes through unchanged. */
  lemma PlainIsShaped(b: string, prefix: string)
    requires Canonical(b) && 3 <= |b| <= 50 && IsLower(b[0]) && prefix != ""
    ensures RStrip(Take50(Lengthened(Lettered(b, prefix), prefix))) == b
  {
    RStripOne(b);
  }

  lemma SlugSqueezesDoubles(s: string, prefix: string)
    requires ValidSlug(prefix) && ValidSlug(s) && !NoDouble(s)
    ensures Shaped(s, prefix) != s
  {
    var b := SubRuns(s, Underscore);
    CleanOfSlug(s);
    SqueezedSlug(s);
    StripNothing(b);
    PlainIsShaped(b, prefix);
  }

  predicate Settles(raw: string, prefix: string, fold: Fold)
    requires prefix != ""
  {
    Slugify(Slugify(raw, prefix, fold), prefix, fold) == Slugify(raw, prefix, fold)
  }

  /** Slugging twice is slugging once, for every text, exactly when the default prefix
      has no adjacent underscores. */
  lemma SlugIdempotentIff(prefix: string, fold: Fold)
    requires ValidSlug(prefix)
    ensures (forall raw :: Settles(raw, prefix, fold)) <==> NoDouble(prefix)
  {
    forall raw ensures Settles(raw, prefix, fold) <==> NoDouble(Slugify(raw, prefix, fold)) {
      SlugAlwaysValid(raw, prefix, fold);
      SlugFixedPoints(Slugify(raw, prefix, fold), prefix, fold);
    }
    if NoDouble(prefix) {
      forall raw ensures NoDouble(Slugify(raw, prefix, fold)) {
        SlugAlwaysValid(raw, prefix, fold);
        ShapedIsValid(fold(raw), prefix);
      }
    } else {
      EmptyGivesPrefix(prefix, fold);
      assert !Settles("", prefix, fold);
    }
  }

  lemma EmptyGivesPrefix(prefix: string, fold: Fold)
    requires ValidSlug(prefix)
    ensures Slugify("", prefix, fold) == prefix
  {
    SlugAlwaysValid("", prefix, fold);
    assert Clean("") == "" by { assert SubRuns("", Foreign) == ""; }
    assert Shaped("", prefix) == RStrip(prefix);
    RStripOne(prefix);
  }
}
