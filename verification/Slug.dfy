/** Slugify and EffectiveSubdomain (operator/internal/controller/reconcilers/common.go). */
module Slug {
  import opened Wrappers

  predicate Alphanumeric(c: char) {
    'a' <= c <= 'z' || '0' <= c <= '9'
  }

  predicate SlugChar(c: char) {
    Alphanumeric(c) || c == '-'
  }

  /** strings.ToLower, and the first eight hex digits of the name's SHA-256. */
  datatype Env = Env(lower: string -> string, hash8: string -> string)

  ghost predicate ValidEnv(env: Env) {
    && (forall s :: (forall c :: c in s ==> SlugChar(c)) ==> env.lower(s) == s)
    && (forall s :: |env.hash8(s)| == 8 && forall c :: c in env.hash8(s) ==> Alphanumeric(c))
  }

  // ---------- the code ----------

  /** ReplaceAllString with "-" of every maximal run of other characters; the dash stands at the
      run's end. */
  function ReplaceRuns(s: string): string {
    if s == [] then []
    else if SlugChar(s[0]) then [s[0]] + ReplaceRuns(s[1..])
    else if |s| > 1 && !SlugChar(s[1]) then ReplaceRuns(s[1..])
    else ['-'] + ReplaceRuns(s[1..])
  }

  /** ReplaceAllString with "-" of every run of two or more dashes. */
  function CollapseDashes(s: string): string {
    if s == [] then []
    else if |s| > 1 && s[0] == '-' && s[1] == '-' then CollapseDashes(s[1..])
    else [s[0]] + CollapseDashes(s[1..])
  }

  function TrimLeft(s: string): string {
    if s != [] && s[0] == '-' then TrimLeft(s[1..]) else s
  }

  function TrimRight(s: string): string {
    if s != [] && s[|s| - 1] == '-' then TrimRight(s[..|s| - 1]) else s
  }

  function Normalized(s: string): string {
    TrimRight(TrimLeft(CollapseDashes(ReplaceRuns(s))))
  }

  const KEEP: nat := 48

  function Slugify(env: Env, name: string): string {
    var s := Normalized(env.lower(name));
    if |s| <= KEEP then s else TrimRight(s[..KEEP]) + "-" + env.hash8(name)
  }

  function EffectiveSubdomain(env: Env, override: string, name: string): Option<string> {
    var subdomain := if override == "" then Slugify(env, name) else override;
    if |subdomain| > 63 then None else Some(subdomain)
  }

  // ---------- what it means: the alphanumeric words, joined by single dashes ----------

  function WordEnd(s: string): (n: nat)
    ensures n <= |s|
    ensures forall i :: 0 <= i < n ==> Alphanumeric(s[i])
    ensures n < |s| ==> !Alphanumeric(s[n])
  {
    if s == [] || !Alphanumeric(s[0]) then 0 else 1 + WordEnd(s[1..])
  }

  /** The maximal alphanumeric runs, in order. */
  function Words(s: string): (words: seq<string>)
    ensures forall w :: w in words ==> IsWord(w)
    decreases |s|
  {
    if s == [] then []
    else if !Alphanumeric(s[0]) then Words(s[1..])
    else [s[..WordEnd(s)]] + Words(s[WordEnd(s)..])
  }

  predicate IsWord(w: string) {
    w != [] && forall c :: c in w ==> Alphanumeric(c)
  }

  function JoinDashed(words: seq<string>): string {
    if words == [] then []
    else if |words| == 1 then words[0]
    else words[0] + "-" + JoinDashed(words[1..])
  }

  /** Both replacements at once: every maximal run of non-alphanumerics becomes one dash. */
  function Squeezed(s: string): string {
    if s == [] then []
    else if Alphanumeric(s[0]) then [s[0]] + Squeezed(s[1..])
    else if |s| > 1 && !Alphanumeric(s[1]) then Squeezed(s[1..])
    else ['-'] + Squeezed(s[1..])
  }

  lemma {:induction false} ReplacedStart(s: string)
    ensures s != [] ==> ReplaceRuns(s) != [] && (ReplaceRuns(s)[0] == '-' <==> !Alphanumeric(s[0]))
  {
    if |s| > 1 { ReplacedStart(s[1..]); }
  }

  lemma {:induction false} ReplaceThenCollapse(s: string)
    ensures CollapseDashes(ReplaceRuns(s)) == Squeezed(s)
  {
    if s != [] {
      ReplaceThenCollapse(s[1..]);
      ReplacedStart(s[1..]);
      var r := ReplaceRuns(s[1..]);
      assert ([s[0]] + r)[1..] == r && (['-'] + r)[1..] == r;
    }
  }

  lemma {:induction false} SqueezedWord(s: string)
    ensures Squeezed(s) == s[..WordEnd(s)] + Squeezed(s[WordEnd(s)..])
  {
    if s != [] && Alphanumeric(s[0]) {
      SqueezedWord(s[1..]);
      assert s[1..][WordEnd(s[1..])..] == s[WordEnd(s)..];
      assert s[..WordEnd(s)] == [s[0]] + s[1..][..WordEnd(s[1..])];
    } else {
      assert s[0..] == s;
    }
  }

  lemma TrimRightAfter(a: string, b: string)
    requires b != [] && TrimRight(b) != []
    ensures TrimRight(a + b) == a + TrimRight(b)
    decreases |b|
  {
    assert (a + b)[|a + b| - 1] == b[|b| - 1];
    if b[|b| - 1] == '-' {
      assert (a + b)[..|a + b| - 1] == a + b[..|b| - 1];
      TrimRightAfter(a, b[..|b| - 1]);
    }
  }

  /** `t` is what is left of `s` after its leading non-alphanumerics. */
  lemma {:induction false} SqueezedRest(s: string) returns (t: string)
    requires s != [] && !Alphanumeric(s[0])
    ensures |t| < |s| && Words(s) == Words(t) && Squeezed(s) == "-" + Squeezed(t)
    ensures t == [] || Alphanumeric(t[0])
  {
    if |s| > 1 && !Alphanumeric(s[1]) {
      t := SqueezedRest(s[1..]);
    } else {
      t := s[1..];
    }
  }

  lemma {:induction false} StartsWithWord(s: string)
    requires s != [] && Alphanumeric(s[0])
    ensures TrimRight(Squeezed(s)) == JoinDashed(Words(s)) && Words(s) != []
    decreases |s|
  {
    SqueezedWord(s);
    var w, r := s[..WordEnd(s)], s[WordEnd(s)..];
    assert Words(s) == [w] + Words(r);
    if r == [] {
      assert Squeezed(s) == w && TrimRight(w) == w;
    } else {
      var t := SqueezedRest(r);
      if t == [] {
        assert Squeezed(s) == w + "-";
        TrimDash(w);
      } else {
        StartsWithWord(t);
        hide TrimRight;
        WordThenRest(w, Words(t), Squeezed(t));
        assert Squeezed(s) == (w + "-") + Squeezed(t);
      }
    }
  }

  lemma TrimDash(w: string)
    requires IsWord(w)
    ensures TrimRight(w + "-") == w
  {
    assert (w + "-")[..|w + "-"| - 1] == w;
    assert w[|w| - 1] in w;
  }

  lemma WordThenRest(w: string, words: seq<string>, rest: string)
    requires words != [] && (forall v :: v in words ==> IsWord(v)) && TrimRight(rest) == JoinDashed(words)
    ensures TrimRight(w + "-" + rest) == JoinDashed([w] + words)
  {
    JoinedNonEmpty(words);
    assert rest != [];
    TrimRightAfter(w + "-", rest);
    assert ([w] + words)[1..] == words;
  }

  lemma {:induction false} TrimsToWords(s: string)
    ensures TrimRight(TrimLeft(Squeezed(s))) == JoinDashed(Words(s))
  {
    if s != [] && Alphanumeric(s[0]) {
      StartsWithWord(s);
      assert TrimLeft(Squeezed(s)) == Squeezed(s);
    } else if s != [] {
      var t := SqueezedRest(s);
      assert TrimLeft(Squeezed(s)) == TrimLeft(Squeezed(t)) by {
        assert ("-" + Squeezed(t))[1..] == Squeezed(t);
      }
      if t != [] {
        StartsWithWord(t);
        assert TrimLeft(Squeezed(t)) == Squeezed(t);
      }
    }
  }

  lemma JoinedNonEmpty(words: seq<string>)
    requires words != [] && forall w :: w in words ==> IsWord(w)
    ensures JoinDashed(words) != []
  {
    assert IsWord(words[0]);
  }

  /** The three replacements and the trim together: the words of the text, joined by dashes. */
  lemma NormalizedMeaning(s: string)
    ensures Normalized(s) == JoinDashed(Words(s))
  {
    ReplaceThenCollapse(s);
    TrimsToWords(s);
  }

  // ---------- the normal form ----------

  ghost predicate Normal(s: string) {
    && (forall c :: c in s ==> SlugChar(c))
    && (s != [] ==> s[0] != '-' && s[|s| - 1] != '-')
    && forall i :: 0 <= i < |s| - 1 ==> s[i] != '-' || s[i + 1] != '-'
  }

  lemma NormalJoin(a: string, b: string)
    requires Normal(a) && Normal(b) && a != [] && b != []
    ensures Normal(a + "-" + b)
  {
    var s := a + "-" + b;
    forall i | 0 <= i < |s| - 1 ensures s[i] != '-' || s[i + 1] != '-' {
      if i > |a| { assert s[i] == b[i - |a| - 1] && s[i + 1] == b[i - |a|]; }
    }
    assert s[|s| - 1] == b[|b| - 1];
  }

  lemma WordNormal(w: string)
    requires IsWord(w)
    ensures Normal(w)
  {
    forall i | 0 <= i < |w| ensures w[i] != '-' { assert w[i] in w; }
  }

  lemma {:induction false} JoinedNormal(words: seq<string>)
    requires forall w :: w in words ==> IsWord(w)
    ensures Normal(JoinDashed(words))
  {
    if words != [] {
      WordNormal(words[0]);
      if |words| > 1 {
        JoinedNormal(words[1..]);
        JoinedNonEmpty(words[1..]);
        NormalJoin(words[0], JoinDashed(words[1..]));
      }
    }
  }

  lemma {:induction false} ReplaceKeeps(s: string)
    requires forall c :: c in s ==> SlugChar(c)
    ensures ReplaceRuns(s) == s
  {
    if s != [] {
      assert SlugChar(s[0]);
      ReplaceKeeps(s[1..]);
    }
  }

  lemma {:induction false} CollapseKeeps(s: string)
    requires forall i :: 0 <= i < |s| - 1 ==> s[i] != '-' || s[i + 1] != '-'
    ensures CollapseDashes(s) == s
  {
    if s != [] {
      forall i | 0 <= i < |s[1..]| - 1 ensures s[1..][i] != '-' || s[1..][i + 1] != '-' {
        assert s[1..][i] == s[i + 1];
      }
      CollapseKeeps(s[1..]);
    }
  }

  lemma NormalIsFixed(s: string)
    requires Normal(s)
    ensures Normalized(s) == s
  {
    ReplaceKeeps(s);
    CollapseKeeps(s);
  }

  lemma NormalizedNormal(s: string)
    ensures Normal(Normalized(s))
  {
    NormalizedMeaning(s);
    JoinedNormal(Words(s));
  }

  /** Cutting a normal text loses at most one dash. */
  lemma CutPrefix(s: string)
    requires Normal(s) && |s| > KEEP
    ensures var p := TrimRight(s[..KEEP]);
      KEEP - 1 <= |p| <= KEEP && p == s[..|p|] && p[|p| - 1] != '-' && Normal(p)
  {
    if s[KEEP - 1] == '-' {
      assert s[KEEP - 2] != '-';
      assert s[..KEEP][..KEEP - 1] == s[..KEEP - 1];
    }
  }

  // ---------- the promises ----------

  /** A slug has only [a-z0-9-], no leading, trailing or doubled dash, and at most 57 characters. */
  lemma SlugIsNormal(env: Env, name: string)
    requires ValidEnv(env)
    ensures Normal(Slugify(env, name)) && |Slugify(env, name)| <= 57
    ensures |Slugify(env, name)| <= KEEP <==> |JoinDashed(Words(env.lower(name)))| <= KEEP
  {
    var s := Normalized(env.lower(name));
    NormalizedNormal(env.lower(name));
    NormalizedMeaning(env.lower(name));
    if |s| > KEEP {
      CutPrefix(s);
      WordNormal(env.hash8(name));
      hide Normal, Normalized, TrimRight;
      NormalJoin(TrimRight(s[..KEEP]), env.hash8(name));
    }
  }

  /** Slugify is idempotent on a name exactly when the slug is short or hashes like the name. */
  lemma IdempotentExactly(env: Env, name: string)
    requires ValidEnv(env)
    ensures var slug := Slugify(env, name);
      Slugify(env, slug) == slug <==> |slug| <= KEEP || env.hash8(slug) == env.hash8(name)
  {
    var slug := Slugify(env, name);
    SlugIsNormal(env, name);
    assert env.lower(slug) == slug;
    NormalIsFixed(slug);
    if |slug| > KEEP {
      var s := Normalized(env.lower(name));
      NormalizedNormal(env.lower(name));
      CutPrefix(s);
      var p := TrimRight(s[..KEEP]);
      assert slug == p + "-" + env.hash8(name);
      PrefixOfSlug(p, env.hash8(name));
      assert Slugify(env, slug) == p + "-" + env.hash8(slug);
      assert slug[|p| + 1..] == env.hash8(name) && Slugify(env, slug)[|p| + 1..] == env.hash8(slug);
    }
  }

  lemma PrefixOfSlug(p: string, tail: string)
    requires KEEP - 1 <= |p| <= KEEP && p[|p| - 1] != '-'
    ensures TrimRight((p + "-" + tail)[..KEEP]) == p
  {
    if |p| == KEEP {
      assert (p + "-" + tail)[..KEEP] == p;
    } else {
      assert (p + "-" + tail)[..KEEP] == p + "-";
      assert (p + "-")[..|p|] == p;
    }
  }

  /** The slug's text: the words of the lower-case name, joined by dashes; a text of more than 48
      characters is cut there, loses the dash the cut leaves at its end, and gets the name's hash. */
  lemma SlugExactly(env: Env, name: string)
    ensures var s := JoinDashed(Words(env.lower(name)));
      Slugify(env, name) == if |s| <= 48 then s
                            else (if s[47] == '-' then s[..47] else s[..48]) + "-" + env.hash8(name)
  {
    var s := Normalized(env.lower(name));
    NormalizedNormal(env.lower(name));
    NormalizedMeaning(env.lower(name));
    if |s| > 48 {
      assert s[46] != '-' || s[47] != '-';
      if s[47] == '-' {
        assert s[..48][..47] == s[..47];
        assert TrimRight(s[..47]) == s[..47];
      }
    }
  }

  /** A text that is a slug already is its own slug. */
  lemma SlugKept(env: Env, name: string)
    requires ValidEnv(env) && |name| <= 48
    requires forall i :: 0 <= i < |name| ==> 'a' <= name[i] <= 'z' || '0' <= name[i] <= '9' || name[i] == '-'
    requires name != "" ==> name[0] != '-' && name[|name| - 1] != '-'
    requires forall i :: 0 <= i < |name| - 1 ==> name[i] != '-' || name[i + 1] != '-'
    ensures Slugify(env, name) == name
  {
    assert env.lower(name) == name;
    NormalIsFixed(name);
  }

  /** An override is taken as it is, and fails exactly over 63 characters; without one no name is
      rejected, however long. */
  lemma SubdomainExactly(env: Env, override: string, name: string)
    requires ValidEnv(env)
    ensures EffectiveSubdomain(env, override, name) ==
            if override == "" then Some(Slugify(env, name)) else if |override| <= 63 then Some(override) else None
  {
    SlugIsNormal(env, name);
  }

  // ---------- which names share a slug ----------

  lemma {:induction false} WordsOfJoined(words: seq<string>)
    requires forall w :: w in words ==> IsWord(w)
    ensures Words(JoinDashed(words)) == words
  {
    if |words| == 1 {
      FirstWord(words[0], []);
      assert words[0] + [] == words[0] && words == [words[0]];
    } else if |words| > 1 {
      var rest := JoinDashed(words[1..]);
      FirstWord(words[0], "-" + rest);
      assert words[0] + "-" + rest == words[0] + ("-" + rest);
      assert ("-" + rest)[1..] == rest;
      WordsOfJoined(words[1..]);
      assert words == [words[0]] + words[1..];
    }
  }

  lemma {:induction false} FirstWord(w: string, rest: string)
    requires IsWord(w) && (rest == [] || !Alphanumeric(rest[0]))
    ensures Words(w + rest) == [w] + Words(rest)
  {
    WordEndIs(w, rest);
    assert (w + rest)[|w|..] == rest && (w + rest)[..|w|] == w;
    assert Alphanumeric((w + rest)[0]) by { assert w[0] in w; }
  }

  lemma {:induction false} WordEndIs(w: string, rest: string)
    requires (forall c :: c in w ==> Alphanumeric(c)) && (rest == [] || !Alphanumeric(rest[0]))
    ensures WordEnd(w + rest) == |w|
  {
    if w != [] {
      assert w[0] in w;
      WordEndIs(w[1..], rest);
      assert (w + rest)[1..] == w[1..] + rest;
    } else {
      assert w + rest == rest;
    }
  }

  predicate Long(env: Env, name: string) {
    |JoinDashed(Words(env.lower(name)))| > KEEP
  }

  /** Two names share a slug exactly when both are short and have the same words, or both are long
      and agree in the first eight hash digits and in the part that is kept. */
  lemma SameSlugExactly(env: Env, a: string, b: string)
    requires ValidEnv(env)
    ensures Slugify(env, a) == Slugify(env, b) <==>
      var s, t := JoinDashed(Words(env.lower(a))), JoinDashed(Words(env.lower(b)));
      if Long(env, a) && Long(env, b) then TrimRight(s[..KEEP]) == TrimRight(t[..KEEP]) && env.hash8(a) == env.hash8(b)
      else !Long(env, a) && !Long(env, b) && Words(env.lower(a)) == Words(env.lower(b))
  {
    SlugIsNormal(env, a);
    SlugIsNormal(env, b);
    NormalizedMeaning(env.lower(a));
    NormalizedMeaning(env.lower(b));
    WordsOfJoined(Words(env.lower(a)));
    WordsOfJoined(Words(env.lower(b)));
    if Long(env, a) && Long(env, b) && Slugify(env, a) == Slugify(env, b) {
      SameTail(TrimRight(Normalized(env.lower(a))[..KEEP]) + "-", env.hash8(a),
               TrimRight(Normalized(env.lower(b))[..KEEP]) + "-", env.hash8(b));
    }
  }

  lemma SameTail(a: string, x: string, b: string, y: string)
    requires a + x == b + y && |x| == |y| && a != [] && b != [] && a[|a| - 1] == b[|b| - 1]
    ensures x == y && a[..|a| - 1] == b[..|b| - 1]
  {
    assert |a| == |b|;
    assert a == (a + x)[..|a|] && b == (b + y)[..|b|];
    assert x == (a + x)[|a|..] && y == (b + y)[|b|..];
  }
}
