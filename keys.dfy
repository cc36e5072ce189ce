/** The pure string helpers of the store: the key a working solution is filed
    under, and the technology tags extracted from free text. */
module SolutionKeys {
  import opened Text
  import opened Slices

  /** Longest key kept by the store. */
  const MaxKeyLength := 50

  /** Characters that survive `re.sub(r'[^\w\s]', '', problem.lower())`. */
  predicate CleanChar(c: char) {
    (IsWordChar(c) || IsSpace(c)) && !IsUpper(c)
  }

  /** Characters a finished key is made of. */
  predicate KeyChar(c: char) {
    IsWordChar(c) && !IsUpper(c)
  }

  /** Drops every character that is neither a word character nor white space. */
  function KeepWordOrSpace(s: string): (r: string)
    ensures |r| <= |s|
  {
    if s == [] then []
    else if IsWordChar(s[0]) || IsSpace(s[0]) then [s[0]] + KeepWordOrSpace(s[1..])
    else KeepWordOrSpace(s[1..])
  }

  /** Of a lower-cased string, only the characters of a key and white space remain. */
  lemma {:induction false} KeepWordOrSpaceClean(s: string)
    requires forall i :: 0 <= i < |s| ==> !IsUpper(s[i])
    ensures forall i :: 0 <= i < |KeepWordOrSpace(s)| ==> CleanChar(KeepWordOrSpace(s)[i])
  {
    if s != [] {
      KeepWordOrSpaceClean(s[1..]);
    }
  }

  function StripLeft(s: string): (r: string)
    ensures |r| <= |s|
    ensures r != [] ==> !IsSpace(r[0])
    ensures s != [] && IsSpace(s[0]) ==> |r| < |s|
  {
    if s != [] && IsSpace(s[0]) then StripLeft(s[1..]) else s
  }

  function StripRight(s: string): (r: string)
    ensures |r| <= |s|
    ensures r != [] ==> !IsSpace(r[|r| - 1])
  {
    if s != [] && IsSpace(s[|s| - 1]) then StripRight(s[..|s| - 1]) else s
  }

  /** `lstrip` only drops a prefix. */
  lemma {:induction false} StripLeftSuffix(s: string)
    ensures StripLeft(s) == s[|s| - |StripLeft(s)|..]
  {
    if s != [] && IsSpace(s[0]) {
      StripLeftSuffix(s[1..]);
    }
  }

  /** `rstrip` only drops a suffix. */
  lemma {:induction false} StripRightPrefix(s: string)
    ensures StripRight(s) == s[..|StripRight(s)|]
  {
    if s != [] && IsSpace(s[|s| - 1]) {
      StripRightPrefix(s[..|s| - 1]);
    }
  }

  /** `str.strip()` */
  function Strip(s: string): (r: string)
    ensures |r| <= |s|
    ensures r != [] ==> !IsSpace(r[0]) && !IsSpace(r[|r| - 1])
  {
    StripRightPrefix(StripLeft(s));
    StripRight(StripLeft(s))
  }

  /** `re.sub(r'\s+', '_', s)`: every maximal run of white space becomes one `_`. */
  function CollapseSpaces(s: string): (r: string)
    ensures |r| <= |s|
    decreases |s|
  {
    if s == [] then []
    else if IsSpace(s[0]) then "_" + CollapseSpaces(StripLeft(s))
    else [s[0]] + CollapseSpaces(s[1..])
  }

  /** Collapsing the white space of cleaned text leaves only key characters. */
  lemma {:induction false} CollapseSpacesKeys(s: string)
    requires forall i :: 0 <= i < |s| ==> CleanChar(s[i])
    ensures forall i :: 0 <= i < |CollapseSpaces(s)| ==> KeyChar(CollapseSpaces(s)[i])
    decreases |s|
  {
    if s == [] {
    } else if IsSpace(s[0]) {
      StripLeftKeepsClean(s);
      CollapseSpacesKeys(StripLeft(s));
    } else {
      assert forall i :: 0 <= i < |s| - 1 ==> s[1..][i] == s[i + 1];
      CollapseSpacesKeys(s[1..]);
    }
  }

  /** `_generate_solution_key`: lower-case, drop punctuation, strip, turn white
      space runs into `_`, keep at most 50 characters. */
  function GenerateSolutionKey(problem: string): (key: string)
    ensures |key| <= MaxKeyLength
    ensures forall i :: 0 <= i < |key| ==> KeyChar(key[i])
  {
    var kept := KeepWordOrSpace(Lower(problem));
    KeepWordOrSpaceClean(Lower(problem));
    StripKeepsClean(kept);
    CollapseSpacesKeys(Strip(kept));
    PyTake(CollapseSpaces(Strip(kept)), MaxKeyLength)
  }

  lemma StripKeepsClean(s: string)
    requires forall i :: 0 <= i < |s| ==> CleanChar(s[i])
    ensures forall i :: 0 <= i < |Strip(s)| ==> CleanChar(Strip(s)[i])
  {
    StripLeftKeepsClean(s);
    StripRightKeepsClean(StripLeft(s));
  }

  lemma StripLeftKeepsClean(s: string)
    requires forall i :: 0 <= i < |s| ==> CleanChar(s[i])
    ensures forall i :: 0 <= i < |StripLeft(s)| ==> CleanChar(StripLeft(s)[i])
  {
    var r := StripLeft(s);
    StripLeftSuffix(s);
    forall i | 0 <= i < |r| ensures CleanChar(r[i]) {
      assert r[i] == s[|s| - |r| + i];
    }
  }

  lemma StripRightKeepsClean(s: string)
    requires forall i :: 0 <= i < |s| ==> CleanChar(s[i])
    ensures forall i :: 0 <= i < |StripRight(s)| ==> CleanChar(StripRight(s)[i])
  {
    var r := StripRight(s);
    StripRightPrefix(s);
    forall i | 0 <= i < |r| ensures CleanChar(r[i]) {
      assert r[i] == s[i];
    }
  }

  lemma {:induction false} KeepAllClean(s: string)
    requires forall i :: 0 <= i < |s| ==> IsWordChar(s[i]) || IsSpace(s[i])
    ensures KeepWordOrSpace(s) == s
  {
    if s != [] {
      KeepAllClean(s[1..]);
    }
  }

  lemma {:induction false} CollapseNoSpaces(s: string)
    requires forall i :: 0 <= i < |s| ==> KeyChar(s[i])
    ensures CollapseSpaces(s) == s
  {
    if s != [] {
      CollapseNoSpaces(s[1..]);
    }
  }

  /** A key is a fixed point of key generation: filing a solution under an
      already generated key files it under that same key. */
  lemma KeyIdempotent(problem: string)
    ensures GenerateSolutionKey(GenerateSolutionKey(problem)) == GenerateSolutionKey(problem)
  {
    var k := GenerateSolutionKey(problem);
    LowerOfLower(k);
    KeepAllClean(k);
    assert StripLeft(k) == k;
    assert StripRight(k) == k;
    CollapseNoSpaces(k);
  }

  /** Problems that differ only in letter case share a key. */
  lemma KeyIgnoresCase(p: string, q: string)
    requires |p| == |q|
    requires forall i :: 0 <= i < |p| ==> LowerChar(p[i]) == LowerChar(q[i])
    ensures GenerateSolutionKey(p) == GenerateSolutionKey(q)
  {
    SameLower(p, q);
  }

  lemma SameLower(p: string, q: string)
    requires |p| == |q|
    requires forall i :: 0 <= i < |p| ==> LowerChar(p[i]) == LowerChar(q[i])
    ensures Lower(p) == Lower(q)
  {
  }

  lemma LowerConcat(x: string, y: string)
    ensures Lower(x + y) == Lower(x) + Lower(y)
  {
    assert forall i :: 0 <= i < |x| + |y| ==> (x + y)[i] == if i < |x| then x[i] else y[i - |x|];
  }

  lemma {:induction false} KeepConcat(x: string, y: string)
    ensures KeepWordOrSpace(x + y) == KeepWordOrSpace(x) + KeepWordOrSpace(y)
  {
    if x == [] {
      assert x + y == y;
    } else {
      assert (x + y)[0] == x[0] && (x + y)[1..] == x[1..] + y;
      KeepConcat(x[1..], y);
    }
  }

  /** A punctuation character changes nothing in the key, wherever it stands. */
  lemma KeyDropsPunctuation(a: string, c: char, b: string)
    requires !IsWordChar(c) && !IsSpace(c)
    ensures GenerateSolutionKey(a + [c] + b) == GenerateSolutionKey(a + b)
  {
    KeptDropsPunctuation(a, c, b);
  }

  lemma KeptDropsPunctuation(a: string, c: char, b: string)
    requires !IsWordChar(c) && !IsSpace(c)
    ensures KeepWordOrSpace(Lower(a + [c] + b)) == KeepWordOrSpace(Lower(a + b))
  {
    LowerConcat(a + [c], b);
    LowerConcat(a, [c]);
    LowerConcat(a, b);
    KeepConcat(Lower(a) + Lower([c]), Lower(b));
    KeepConcat(Lower(a), Lower([c]));
    KeepConcat(Lower(a), Lower(b));
    assert KeepWordOrSpace(Lower([c])) == [];
  }

  /** Text already in key form apart from single spaces between its parts. */
  predicate PlainProblem(p: string) {
    && (forall i :: 0 <= i < |p| ==> KeyChar(p[i]) || p[i] == ' ')
    && (p != [] ==> p[0] != ' ' && p[|p| - 1] != ' ')
    && (forall i :: 0 <= i < |p| - 1 ==> p[i] != ' ' || p[i + 1] != ' ')
  }

  /** `p` with every space turned into `_`. */
  function Underscored(p: string): (r: string)
    ensures |r| == |p|
  {
    if p == [] then [] else [if p[0] == ' ' then '_' else p[0]] + Underscored(p[1..])
  }

  lemma {:induction false} CollapseSingleSpaces(p: string)
    requires forall i :: 0 <= i < |p| ==> KeyChar(p[i]) || p[i] == ' '
    requires p != [] ==> p[|p| - 1] != ' '
    requires forall i :: 0 <= i < |p| - 1 ==> p[i] != ' ' || p[i + 1] != ' '
    ensures CollapseSpaces(p) == Underscored(p)
    decreases |p|
  {
    if p != [] {
      var rest := p[1..];
      assert forall i :: 0 <= i < |rest| ==> rest[i] == p[i + 1];
      if p[0] == ' ' {
        assert rest != [] && rest[0] != ' ' && !IsSpace(rest[0]);
        assert StripLeft(p) == StripLeft(rest) == rest;
      }
      CollapseSingleSpaces(rest);
    }
  }

  /** A problem made of lower-case words separated by single spaces is filed
      under its first 50 characters, with `_` for each space. */
  lemma KeyOfPlainProblem(p: string)
    requires PlainProblem(p)
    ensures GenerateSolutionKey(p) == PyTake(Underscored(p), MaxKeyLength)
  {
    PlainCollapsed(p);
  }

  lemma PlainCollapsed(p: string)
    requires PlainProblem(p)
    ensures CollapseSpaces(Strip(KeepWordOrSpace(Lower(p)))) == Underscored(p)
  {
    PlainIsClean(p);
    CollapseSingleSpaces(p);
  }

  lemma PlainIsClean(p: string)
    requires PlainProblem(p)
    ensures Strip(KeepWordOrSpace(Lower(p))) == p
  {
    LowerOfLower(p);
    KeepAllClean(p);
    assert StripLeft(p) == p;
    assert StripRight(p) == p;
  }

  predicate AllSpace(s: string) {
    forall i :: 0 <= i < |s| ==> IsSpace(s[i])
  }

  /** Stripping the left of `x + z` strips inside `x` unless `x` is all white space. */
  lemma {:induction false} StripLeftConcat(x: string, z: string)
    ensures AllSpace(x) ==> StripLeft(x + z) == StripLeft(z)
    ensures !AllSpace(x) ==> StripLeft(x + z) == StripLeft(x) + z
    decreases |x|
  {
    if x == [] {
      assert x + z == z;
    } else {
      assert (x + z)[0] == x[0] && (x + z)[1..] == x[1..] + z;
      assert forall i :: 0 <= i < |x| - 1 ==> x[1..][i] == x[i + 1];
      if IsSpace(x[0]) {
        StripLeftConcat(x[1..], z);
      } else {
        assert !AllSpace(x);
      }
    }
  }

  /** Stripping the right of `z + y` strips inside `y` unless `y` is all white space. */
  lemma {:induction false} StripRightConcat(z: string, y: string)
    ensures AllSpace(y) ==> StripRight(z + y) == StripRight(z)
    ensures !AllSpace(y) ==> StripRight(z + y) == z + StripRight(y)
    decreases |y|
  {
    if y == [] {
      assert z + y == z;
    } else {
      var init := y[..|y| - 1];
      assert (z + y)[|z + y| - 1] == y[|y| - 1] && (z + y)[..|z + y| - 1] == z + init;
      assert forall i :: 0 <= i < |init| ==> init[i] == y[i];
      if IsSpace(y[|y| - 1]) {
        StripRightConcat(z, init);
      } else {
        assert !AllSpace(y);
      }
    }
  }

  lemma AllSpaceConcat(x: string, y: string)
    ensures AllSpace(x + y) <==> AllSpace(x) && AllSpace(y)
  {
    assert forall i :: 0 <= i < |x| ==> (x + y)[i] == x[i];
    assert forall i :: 0 <= i < |y| ==> (x + y)[|x| + i] == y[i];
  }

  lemma {:induction false} StripLeftAllSpace(s: string)
    requires AllSpace(s)
    ensures StripLeft(s) == []
  {
    if s != [] {
      assert forall i :: 0 <= i < |s| - 1 ==> s[1..][i] == s[i + 1];
      StripLeftAllSpace(s[1..]);
    }
  }

  /** Two tails that both start with white space and agree once it is
      stripped collapse alike after any common head. */
  lemma {:induction false} CollapseSame(x: string, z1: string, z2: string)
    requires z1 != [] && z2 != [] && IsSpace(z1[0]) && IsSpace(z2[0])
    requires StripLeft(z1) == StripLeft(z2)
    ensures CollapseSpaces(x + z1) == CollapseSpaces(x + z2)
    decreases |x|
  {
    if x == [] {
      assert x + z1 == z1 && x + z2 == z2;
    } else if !IsSpace(x[0]) {
      assert (x + z1)[0] == x[0] && (x + z1)[1..] == x[1..] + z1;
      assert (x + z2)[0] == x[0] && (x + z2)[1..] == x[1..] + z2;
      CollapseSame(x[1..], z1, z2);
    } else {
      assert (x + z1)[0] == x[0] && (x + z2)[0] == x[0];
      StripLeftConcat(x, z1);
      StripLeftConcat(x, z2);
      if !AllSpace(x) {
        CollapseSame(StripLeft(x), z1, z2);
      }
    }
  }

  /** A run of white space collapses to the same `_` as a single space,
      whatever the white space around it. */
  lemma CollapseRun(x: string, w: string, y: string)
    requires w != [] && AllSpace(w)
    ensures CollapseSpaces(x + (w + y)) == CollapseSpaces(x + (" " + y))
  {
    StripLeftConcat(w, y);
    StripLeftConcat(" ", y);
    assert (w + y)[0] == w[0] && (" " + y)[0] == ' ';
    CollapseSame(x, w + y, " " + y);
  }

  /** The same, after stripping both ends. */
  lemma StripCollapseRun(x: string, w: string, y: string)
    requires w != [] && AllSpace(w)
    ensures CollapseSpaces(Strip(x + (w + y))) == CollapseSpaces(Strip(x + (" " + y)))
  {
    StripLeftConcat(x, w + y);
    StripLeftConcat(x, " " + y);
    AllSpaceConcat(w, y);
    AllSpaceConcat(" ", y);
    if AllSpace(x) {
      StripLeftConcat(w, y);
      StripLeftConcat(" ", y);
    } else {
      var rest := StripLeft(x);
      StripRightConcat(rest, w + y);
      StripRightConcat(rest, " " + y);
      if !AllSpace(y) {
        StripRightConcat(w, y);
        StripRightConcat(" ", y);
        CollapseRun(rest, w, StripRight(y));
      }
    }
  }

  /** Cleaning a three-part text cleans each part. */
  lemma KeptThree(a: string, w: string, b: string)
    ensures KeepWordOrSpace(Lower(a + w + b))
            == KeepWordOrSpace(Lower(a)) + (KeepWordOrSpace(Lower(w)) + KeepWordOrSpace(Lower(b)))
  {
    LowerConcat(a + w, b);
    LowerConcat(a, w);
    KeepConcat(Lower(a) + Lower(w), Lower(b));
    KeepConcat(Lower(a), Lower(w));
    var ka, kw, kb := KeepWordOrSpace(Lower(a)), KeepWordOrSpace(Lower(w)), KeepWordOrSpace(Lower(b));
    assert ka + kw + kb == ka + (kw + kb);
  }

  /** White space survives cleaning unchanged. */
  lemma KeptSpace(w: string)
    requires AllSpace(w)
    ensures AllSpace(Lower(w)) && KeepWordOrSpace(Lower(w)) == Lower(w)
  {
    KeepAllClean(Lower(w));
  }

  /** Cleaning `a + w + b` for white space `w` cleans `a` and `b` and keeps `w`. */
  lemma KeptAroundRun(a: string, w: string, b: string)
    requires AllSpace(w)
    ensures AllSpace(Lower(w)) && |Lower(w)| == |w|
    ensures KeepWordOrSpace(Lower(a + w + b))
            == KeepWordOrSpace(Lower(a)) + (Lower(w) + KeepWordOrSpace(Lower(b)))
  {
    KeptThree(a, w, b);
    KeptSpace(w);
  }

  lemma KeptRunCollapses(a: string, w: string, b: string)
    requires w != [] && AllSpace(w)
    ensures CollapseSpaces(Strip(KeepWordOrSpace(Lower(a + w + b))))
            == CollapseSpaces(Strip(KeepWordOrSpace(Lower(a + " " + b))))
  {
    KeptAroundRun(a, w, b);
    KeptAroundRun(a, " ", b);
    assert Lower(" ") == " ";
    StripCollapseRun(KeepWordOrSpace(Lower(a)), Lower(w), KeepWordOrSpace(Lower(b)));
  }

  /** Any run of white space (spaces, tabs, newlines; one or many) files a
      problem under the same key as a single space; together with
      `KeyOfPlainProblem` and `KeyStripsEnds`, runs between words become one
      `_` and runs at either end are stripped. */
  lemma KeyCollapsesWhitespace(a: string, w: string, b: string)
    requires w != [] && AllSpace(w)
    ensures GenerateSolutionKey(a + w + b) == GenerateSolutionKey(a + " " + b)
  {
    KeptRunCollapses(a, w, b);
  }

  /** White space at either end does not change the key. */
  lemma KeyStripsEnds(w: string, p: string, v: string)
    requires AllSpace(w) && AllSpace(v)
    ensures GenerateSolutionKey(w + p + v) == GenerateSolutionKey(p)
  {
    KeptEndsStripped(w, p, v);
  }

  lemma KeptEndsStripped(w: string, p: string, v: string)
    requires AllSpace(w) && AllSpace(v)
    ensures Strip(KeepWordOrSpace(Lower(w + p + v))) == Strip(KeepWordOrSpace(Lower(p)))
  {
    KeptEnds(w, p, v);
    var kp, lw, lv := KeepWordOrSpace(Lower(p)), Lower(w), Lower(v);
    StripLeftConcat(lw, kp + lv);
    StripLeftConcat(kp, lv);
    if AllSpace(kp) {
      AllSpaceConcat(kp, lv);
      StripLeftAllSpace(kp + lv);
      StripLeftAllSpace(kp);
    } else {
      StripRightConcat(StripLeft(kp), lv);
    }
  }

  lemma KeptEnds(w: string, p: string, v: string)
    requires AllSpace(w) && AllSpace(v)
    ensures AllSpace(Lower(w)) && AllSpace(Lower(v))
    ensures KeepWordOrSpace(Lower(w + p + v))
            == Lower(w) + (KeepWordOrSpace(Lower(p)) + Lower(v))
  {
    KeptThree(w, p, v);
    KeptSpace(w);
    KeptSpace(v);
  }

  /** The technology keywords `_extract_tags` looks for. */
  const TechKeywords: set<string> := {
    "react", "vue", "angular", "javascript", "typescript", "python", "java",
    "docker", "kubernetes", "redis", "postgresql", "mongodb", "api", "rest",
    "graphql", "fastapi", "express", "flask", "django", "spring", "authentication",
    "database", "cache", "security", "deployment", "testing", "performance"
  }

  function KeywordsIn(words: seq<string>): (tags: set<string>)
    ensures forall w :: w in tags <==> w in words && w in TechKeywords
  {
    if words == [] then {}
    else (if words[0] in TechKeywords then {words[0]} else {}) + KeywordsIn(words[1..])
  }

  /** `_extract_tags`: the keywords among the words of the lower-cased text,
      without duplicates (the source returns `list(set(...))`, in no set order). */
  function ExtractTags(text: string): (tags: set<string>)
    ensures tags <= TechKeywords
    ensures forall w :: w in Words(Lower(text)) && w in TechKeywords ==> w in tags
    ensures forall w :: w in tags ==> w in Words(Lower(text))
  {
    KeywordsIn(Words(Lower(text)))
  }
}
