/**
 * Site slugs: internal/slug/slug.go and its dashboard twin in
 * apps/dashboard/lib/skills-shared.ts. Lower-casing is a parameter.
 */
module Slug {
  import opened Bytes

  const MAX_SLUG := 63

  predicate IsAlnum(c: char) { 'a' <= c <= 'z' || '0' <= c <= '9' }
  predicate IsHyphen(c: char) { c == '-' }
  predicate IsSlugChar(c: char) { IsAlnum(c) || c == '-' }
  predicate IsJunk(c: char) { !IsSlugChar(c) }
  predicate IsBreak(c: char) { !IsAlnum(c) }

  predicate SlugText(s: string) { forall i :: 0 <= i < |s| ==> IsSlugChar(s[i]) }

  predicate HasDouble(s: string) { exists i :: 0 <= i < |s| && DoubleAt(s, i) }
  predicate DoubleAt(s: string, i: int) { 0 <= i < |s| - 1 && s[i] == '-' && s[i + 1] == '-' }

  /** Slug characters, alphanumeric at both ends, no double hyphen; of any length. */
  predicate Canonical(s: string) {
    s != "" ==> SlugText(s) && IsAlnum(s[0]) && IsAlnum(s[|s| - 1]) && !HasDouble(s)
  }

  predicate Valid(s: string) {
    && 1 <= |s| <= MAX_SLUG
    && IsAlnum(s[0]) && IsAlnum(s[|s| - 1]) && SlugText(s)
    && !HasDouble(s)
  }

  /** One to 63 lower-case letters, digits and hyphens, no hyphen at either end and no two together. */
  lemma ValidExactly(s: string)
    ensures Valid(s) <==>
      && 1 <= |s| <= 63 && s[0] != '-' && s[|s| - 1] != '-'
      && (forall i :: 0 <= i < |s| ==> 'a' <= s[i] <= 'z' || '0' <= s[i] <= '9' || s[i] == '-')
      && !exists i :: 0 <= i < |s| - 1 && s[i] == '-' && s[i + 1] == '-'
  {
    if 1 <= |s| {
      assert HasDouble(s) <==> exists i :: 0 <= i < |s| - 1 && s[i] == '-' && s[i + 1] == '-' by {
        if i :| 0 <= i < |s| - 1 && s[i] == '-' && s[i + 1] == '-' { assert DoubleAt(s, i); }
      }
    }
  }

  /** Each maximal run of matching characters becomes one hyphen. */
  function ReplaceRuns(s: string, matches: char -> bool): string {
    if s == "" then ""
    else if !matches(s[0]) then [s[0]] + ReplaceRuns(s[1..], matches)
    else if |s| > 1 && matches(s[1]) then ReplaceRuns(s[1..], matches)
    else "-" + ReplaceRuns(s[1..], matches)
  }

  function Clean(s: string): string {
    TrimRight(IsHyphen, TrimLeft(IsHyphen, ReplaceRuns(ReplaceRuns(s, IsJunk), IsHyphen)))
  }

  function Slugify(lower: string -> string, s: string): string {
    var t := Clean(lower(s));
    if |t| > MAX_SLUG then TrimRight(IsHyphen, t[..MAX_SLUG]) else t
  }

  /** Drops each hyphen that another follows: what replacing `-{2,}` by one hyphen does. */
  function Collapse(s: string): string {
    if s == "" then ""
    else if DoubleAt(s, 0) then Collapse(s[1..])
    else [s[0]] + Collapse(s[1..])
  }

  /** The dashboard's version: the cap comes last, and nothing is trimmed after it. */
  function DashboardSlugify(lower: string -> string, s: string): string {
    var t := TrimRight(IsHyphen, TrimLeft(IsHyphen, Collapse(ReplaceRuns(lower(s), IsJunk))));
    if |t| > MAX_SLUG then t[..MAX_SLUG] else t
  }

  // ---- What cleaning computes --------------------------------------------------

  /** The maximal alphanumeric runs of a text, in order. */
  function Words(s: string): (ws: seq<string>)
    ensures s != "" && IsAlnum(s[0]) ==> ws != [] && ws[0] != ""
  {
    if s == "" then []
    else if !IsAlnum(s[0]) then Words(s[1..])
    else if |s| > 1 && IsAlnum(s[1]) then
      var ws := Words(s[1..]);
      [[s[0]] + ws[0]] + ws[1..]
    else [[s[0]]] + Words(s[1..])
  }

  function Join(ws: seq<string>): string {
    if ws == [] then "" else if |ws| == 1 then ws[0] else ws[0] + "-" + Join(ws[1..])
  }

  lemma {:induction false} ReplaceRunsHead(s: string, matches: char -> bool)
    ensures s == "" <==> ReplaceRuns(s, matches) == ""
    ensures s != "" ==> ReplaceRuns(s, matches)[0] == if matches(s[0]) then '-' else s[0]
  {
    if s != "" && matches(s[0]) && |s| > 1 && matches(s[1]) { ReplaceRunsHead(s[1..], matches); }
  }

  /** The two replacements together replace each run of non-alphanumerics. */
  lemma {:induction false} TwoPasses(s: string)
    ensures ReplaceRuns(ReplaceRuns(s, IsJunk), IsHyphen) == ReplaceRuns(s, IsBreak)
  {
    if s != "" {
      TwoPasses(s[1..]);
      var rest := ReplaceRuns(s[1..], IsJunk);
      ReplaceRunsHead(s[1..], IsJunk);
      if !IsJunk(s[0]) {
        assert ([s[0]] + rest)[1..] == rest;
      } else if !(|s| > 1 && IsJunk(s[1])) {
        assert ("-" + rest)[1..] == rest;
      }
    }
  }

  lemma {:induction false} CollapseIsReplace(s: string)
    ensures Collapse(s) == ReplaceRuns(s, IsHyphen)
  {
    if s != "" { CollapseIsReplace(s[1..]); }
  }

  function Dash(b: bool): string { if b then "-" else "" }

  lemma JoinGrowsFirst(c: char, ws: seq<string>)
    requires ws != []
    ensures Join([[c] + ws[0]] + ws[1..]) == [c] + Join(ws)
  {
    assert ([[c] + ws[0]] + ws[1..])[1..] == ws[1..];
  }

  lemma JoinCons(w: string, ws: seq<string>)
    requires ws != []
    ensures Join([w] + ws) == w + "-" + Join(ws)
  {
    assert ([w] + ws)[1..] == ws;
  }

  /** The words joined by hyphens, one more hyphen at each ragged end. */
  predicate Shape(s: string, runs: string, ws: seq<string>)
    requires s != ""
  {
    runs == if ws == [] then "-" else Dash(IsBreak(s[0])) + Join(ws) + Dash(IsBreak(s[|s| - 1]))
  }

  lemma PutFirst(c: string, lead: string, joined: string, trail: string)
    ensures c + (lead + joined + trail) == "" + (c + lead + joined) + trail
  {
  }

  lemma ShapeOfLetter(s: string, runs: string, ws: seq<string>)
    requires |s| > 1 && IsAlnum(s[0]) && Shape(s[1..], runs, ws)
    requires IsAlnum(s[1]) ==> ws != []
    requires ws == [] ==> IsBreak(s[|s| - 1])
    ensures Shape(s, [s[0]] + runs, if IsAlnum(s[1]) then [[s[0]] + ws[0]] + ws[1..] else [[s[0]]] + ws)
  {
    var c, trail := [s[0]], Dash(IsBreak(s[|s| - 1]));
    if IsAlnum(s[1]) {
      JoinGrowsFirst(s[0], ws);
      PutFirst(c, "", Join(ws), trail);
      assert c + "" == c;
    } else if ws != [] {
      JoinCons(c, ws);
      PutFirst(c, "-", Join(ws), trail);
    }
  }

  /** Replacing the breaks leaves the words joined by hyphens. */
  lemma {:induction false} RunsAreWords(s: string)
    requires s != ""
    ensures Shape(s, ReplaceRuns(s, IsBreak), Words(s))
  {
    if |s| == 1 {
      assert s[1..] == "";
    } else {
      RunsAreWords(s[1..]);
      if IsAlnum(s[0]) {
        if Words(s[1..]) == [] { NoWordsNoLetters(s[1..]); }
        ShapeOfLetter(s, ReplaceRuns(s[1..], IsBreak), Words(s[1..]));
      } else {
        ShapeOfBreak(s, ReplaceRuns(s[1..], IsBreak), Words(s[1..]));
      }
    }
  }

  lemma ShapeOfBreak(s: string, runs: string, ws: seq<string>)
    requires |s| > 1 && IsBreak(s[0]) && Shape(s[1..], runs, ws)
    requires IsAlnum(s[1]) ==> ws != []
    ensures Shape(s, if IsBreak(s[1]) then runs else "-" + runs, ws)
  {
  }

  lemma {:induction false} NoWordsNoLetters(s: string)
    requires Words(s) == []
    ensures forall i :: 0 <= i < |s| ==> IsBreak(s[i])
  {
    if s != "" { NoWordsNoLetters(s[1..]); }
  }

  predicate WordList(ws: seq<string>) {
    forall i :: 0 <= i < |ws| ==> IsWord(ws[i])
  }

  predicate IsWord(w: string) { w != "" && forall i :: 0 <= i < |w| ==> IsAlnum(w[i]) }

  lemma {:induction false} WordsAreWords(s: string)
    ensures WordList(Words(s))
  {
    if s != "" { WordsAreWords(s[1..]); }
  }

  lemma CanonicalCons(w: string, t: string)
    requires IsWord(w) && t != "" && Canonical(t)
    ensures Canonical(w + "-" + t)
  {
    var u := w + "-" + t;
    if i :| DoubleAt(u, i) {
      assert i > |w|;
      assert DoubleAt(t, i - |w| - 1);
    }
  }

  lemma {:induction false} JoinIsCanonical(ws: seq<string>)
    requires WordList(ws)
    ensures Canonical(Join(ws)) && (Join(ws) == "" <==> ws == [])
  {
    if |ws| == 1 {
      assert IsWord(ws[0]);
    } else if |ws| > 1 {
      JoinIsCanonical(ws[1..]);
      CanonicalCons(ws[0], Join(ws[1..]));
    }
  }

  lemma TrimStart(a: bool, u: string)
    requires u != "" && u[0] != '-'
    ensures TrimLeft(IsHyphen, Dash(a) + u) == u
  {
    assert ("-" + u)[1..] == u && "" + u == u;
  }

  lemma TrimFinish(t: string, b: bool)
    requires t != "" && t[|t| - 1] != '-'
    ensures TrimRight(IsHyphen, t + Dash(b)) == t
  {
    var u := t + "-";
    assert u[..|u| - 1] == t && t + "" == t;
  }

  lemma TrimEnds(a: bool, t: string, b: bool)
    requires t != "" && t[0] != '-' && t[|t| - 1] != '-'
    ensures TrimRight(IsHyphen, TrimLeft(IsHyphen, Dash(a) + t + Dash(b))) == t
  {
    assert Dash(a) + t + Dash(b) == Dash(a) + (t + Dash(b));
    TrimStart(a, t + Dash(b));
    TrimFinish(t, b);
  }

  /** Cleaning takes the words of a text and joins them with single hyphens. */
  lemma CleanIsWords(s: string)
    ensures Clean(s) == Join(Words(s))
    ensures Canonical(Clean(s))
  {
    TwoPasses(s);
    WordsAreWords(s);
    JoinIsCanonical(Words(s));
    if s != "" {
      RunsAreWords(s);
      if Words(s) == [] {
        assert TrimLeft(IsHyphen, "-") == "";
      } else {
        TrimEnds(IsBreak(s[0]), Join(Words(s)), IsBreak(s[|s| - 1]));
      }
    }
  }

  // ---- The slug ----------------------------------------------------------------

  lemma PrefixValid(t: string, n: nat)
    requires Canonical(t) && 0 < n <= |t| && IsAlnum(t[n - 1])
    ensures Valid(t[..n]) <==> n <= MAX_SLUG
    ensures TrimRight(IsHyphen, t[..n]) == t[..n]
  {
    assert forall i :: DoubleAt(t[..n], i) ==> DoubleAt(t, i);
    assert SlugText(t[..n]);
  }

  lemma CutIsCanonical(t: string, n: nat)
    requires Canonical(t) && 0 < n <= |t|
    ensures TrimRight(IsHyphen, t[..n]) == if t[n - 1] == '-' then t[..n - 1] else t[..n]
    ensures n <= MAX_SLUG ==> Valid(TrimRight(IsHyphen, t[..n]))
  {
    if t[n - 1] == '-' {
      assert n > 1 && !DoubleAt(t, n - 2);
      assert t[..n][..n - 1] == t[..n - 1];
      PrefixValid(t, n - 1);
    } else {
      PrefixValid(t, n);
    }
  }

  /** Every result is a valid slug, or empty exactly when the input has no usable character. */
  lemma SlugifyIsValid(lower: string -> string, s: string)
    ensures Slugify(lower, s) == "" <==> Words(lower(s)) == []
    ensures Slugify(lower, s) != "" ==> Valid(Slugify(lower, s))
    ensures var t := Join(Words(lower(s)));
      && Slugify(lower, s) <= t && (|t| <= MAX_SLUG ==> Slugify(lower, s) == t)
      && (|t| > MAX_SLUG ==> |Slugify(lower, s)| >= MAX_SLUG - 1)
  {
    var t := Clean(lower(s));
    CleanIsWords(lower(s));
    WordsAreWords(lower(s));
    JoinIsCanonical(Words(lower(s)));
    if |t| > MAX_SLUG { CutIsCanonical(t, MAX_SLUG); }
  }

  /** Lower-casing leaves slug characters alone. */
  ghost predicate KeepsSlugText(lower: string -> string) { forall t :: SlugText(t) ==> lower(t) == t }

  /** ASCII lower-casing is one such. */
  lemma AsciiLowerKeeps()
    ensures KeepsSlugText(AsciiLower)
  {
    forall t | SlugText(t) ensures AsciiLower(t) == t {
      forall i | 0 <= i < |t| ensures LowerChar(t[i]) == t[i] { assert IsSlugChar(t[i]); }
    }
  }

  lemma {:induction false} JoinOfWords(s: string)
    requires Canonical(s)
    ensures Join(Words(s)) == s
    decreases |s|
  {
    if |s| > 1 {
      if IsAlnum(s[1]) {
        CanonicalTail(s, 1);
        JoinOfWords(s[1..]);
        JoinGrowsFirst(s[0], Words(s[1..]));
      } else {
        assert !DoubleAt(s, 1);
        CanonicalTail(s, 2);
        JoinOfWords(s[2..]);
        assert s[1..][1..] == s[2..] && Words(s[1..]) == Words(s[2..]);
        JoinCons([s[0]], Words(s[2..]));
        assert s == [s[0]] + "-" + s[2..];
      }
    }
  }

  lemma CanonicalTail(s: string, n: nat)
    requires Canonical(s) && n < |s| && IsAlnum(s[n])
    ensures Canonical(s[n..])
  {
    assert forall i :: DoubleAt(s[n..], i) ==> DoubleAt(s, n + i);
  }

  /** A text is its own slug exactly when it is a valid slug or empty. */
  lemma FixedExactly(lower: string -> string, s: string)
    requires KeepsSlugText(lower)
    ensures Slugify(lower, s) == s <==> s == "" || Valid(s)
  {
    SlugifyIsValid(lower, s);
    if s == "" || Valid(s) {
      assert SlugText(s) && Canonical(s);
      CleanIsWords(s);
      JoinOfWords(s);
    }
  }

  lemma SlugifyIsIdempotent(lower: string -> string, s: string)
    requires KeepsSlugText(lower)
    ensures Slugify(lower, Slugify(lower, s)) == Slugify(lower, s)
  {
    SlugifyIsValid(lower, s);
    FixedExactly(lower, Slugify(lower, s));
  }

  // ---- Against the dashboard ---------------------------------------------------

  lemma DashboardCleans(lower: string -> string, s: string)
    ensures DashboardSlugify(lower, s) ==
      (var t := Clean(lower(s)); if |t| > MAX_SLUG then t[..MAX_SLUG] else t)
  {
    CollapseIsReplace(ReplaceRuns(lower(s), IsJunk));
  }

  /** Where the two lower-casings agree, so do the slugifiers once the dashboard's trailing hyphens are trimmed. */
  lemma SlugifiersAgree(goLower: string -> string, jsLower: string -> string, s: string)
    requires goLower(s) == jsLower(s)
    ensures Slugify(goLower, s) == TrimRight(IsHyphen, DashboardSlugify(jsLower, s))
  {
    DashboardCleans(jsLower, s);
    CleanIsWords(jsLower(s));
  }

  /** Where they differ the slugs may: Go takes U+0130 to "i", JavaScript to "i" and a combining dot. */
  lemma LowerCasingsShow(goLower: string -> string, jsLower: string -> string)
    requires goLower("\U{0130}x") == "ix" && jsLower("\U{0130}x") == "i\U{0307}x"
    ensures Slugify(goLower, "\U{0130}x") == "ix" && DashboardSlugify(jsLower, "\U{0130}x") == "i-x"
  {
    DashboardCleans(jsLower, "\U{0130}x");
    CleanIsWords("ix");
    JoinOfWords("ix");
    CleanIsWords("i\U{0307}x");
    assert "i\U{0307}x"[1..] == "\U{0307}x" && "\U{0307}x"[1..] == "x" && "x"[1..] == "";
    assert Words("x") == ["x"] && Words("i\U{0307}x") == ["i", "x"];
    JoinCons("i", ["x"]);
  }

  /** The dashboard's result is rejected by the server exactly when the cap falls right after a hyphen. */
  lemma DashboardValidExactly(lower: string -> string, s: string)
    ensures var t := Join(Words(lower(s)));
      (t == "" || Valid(DashboardSlugify(lower, s))) <==> !(|t| > MAX_SLUG && t[MAX_SLUG - 1] == '-')
  {
    var t := Join(Words(lower(s)));
    DashboardCleans(lower, s);
    CleanIsWords(lower(s));
    if t != "" {
      var n := if |t| > MAX_SLUG then MAX_SLUG else |t|;
      CutIsCanonical(t, n);
      if t[n - 1] != '-' { assert TrimRight(IsHyphen, t[..n]) == t[..n] == DashboardSlugify(lower, s); }
    }
  }

  /** Sixty-two letters, a break and a letter: the cap leaves a hyphen at the end, which the server rejects. */
  lemma DashboardFails() returns (name: string)
    ensures DashboardSlugify(AsciiLower, name) != "" && !Valid(DashboardSlugify(AsciiLower, name))
  {
    name := seq(MAX_SLUG - 1, _ => 'a') + "-b";
    AsciiLowerKeeps();
    assert SlugText(name) && !HasDouble(name);
    JoinOfWords(name);
    assert Join(Words(AsciiLower(name))) == name;
    DashboardValidExactly(AsciiLower, name);
    DashboardCleans(AsciiLower, name);
    CleanIsWords(name);
  }
}

/** Content hosts, internal/projection/projection.go. The content domain is a parameter. */
module Hosts {
  import opened Slug

  function HostForSite(domain: string, org: string, app: string): string { org + "--" + app + "." + domain }

  function PreviewHost(domain: string, version: string, org: string, app: string): string {
    PreviewLabelOf(version) + "--" + HostForSite(domain, org, app)
  }

  /** Text before the first double hyphen of a host: it neither holds one nor ends in a hyphen. */
  predicate Segment(s: string) { !HasDouble(s) && (s != "" ==> s[|s| - 1] != '-') }

  lemma NoLonger(a: string, x: string, b: string, y: string)
    requires Segment(b) && a + "--" + x == b + "--" + y
    ensures |b| <= |a|
  {
    var t := a + "--" + x;
    assert t == b + "--" + y;
    if |b| > |a| {
      assert t[|a|] == '-' && t[|a| + 1] == '-';
      assert b[|a|] == '-';
      if |b| > |a| + 1 {
        assert b[|a| + 1] == t[|a| + 1];
        assert DoubleAt(b, |a|);
      }
    }
  }

  lemma SplitAtDouble(a: string, x: string, b: string, y: string)
    requires Segment(a) && Segment(b) && a + "--" + x == b + "--" + y
    ensures a == b && x == y
  {
    NoLonger(a, x, b, y);
    NoLonger(b, y, a, x);
    var t := a + "--" + x;
    assert a == t[..|a|] && b == t[..|b|] && x == t[|a| + 2..] && y == t[|b| + 2..];
  }

  lemma CutSuffix(a: string, b: string, suffix: string)
    requires a + suffix == b + suffix
    ensures a == b
  {
    assert |a + suffix| == |a| + |suffix| && |b + suffix| == |b| + |suffix|;
    assert a == (a + suffix)[..|a|] && b == (b + suffix)[..|b|];
  }

  /** The org first, then the app. */
  lemma HostOfBlog()
    ensures HostForSite("dropwaycontent.com", "acme", "blog") == "acme--blog.dropwaycontent.com"
  {
  }

  /** A version's label before both. */
  lemma PreviewOfBlog(domain: string, org: string, app: string)
    ensures PreviewHost(domain, "", org, app) == "preview--" + org + "--" + app + "." + domain
  {
    assert PreviewLabelOf("") == "preview";
  }

  /** Two sites of valid slugs share a host only if they are the same site. */
  lemma HostIsInjective(domain: string, org: string, app: string, org': string, app': string)
    requires Valid(org) && Valid(app) && Valid(org') && Valid(app')
    requires HostForSite(domain, org, app) == HostForSite(domain, org', app')
    ensures org == org' && app == app'
  {
    var x, y := app + "." + domain, app' + "." + domain;
    assert HostForSite(domain, org, app) == org + "--" + x;
    assert HostForSite(domain, org', app') == org' + "--" + y;
    SplitAtDouble(org, x, org', y);
    assert x == app + ("." + domain) && y == app' + ("." + domain);
    CutSuffix(app, app', "." + domain);
  }

  // ---- Preview hosts -----------------------------------------------------------

  /** The bytes a rune takes in UTF-8, in which Go measures strings. */
  function Width(c: char): nat {
    if c < 0x80 as char then 1 else if c < 0x800 as char then 2 else if c < 0x1_0000 as char then 3 else 4
  }

  function ByteLength(s: string): nat { if s == "" then 0 else ByteLength(s[..|s| - 1]) + Width(s[|s| - 1]) }

  function Stripped(v: string): string {
    if v == "" then "" else if v[0] == '-' then Stripped(v[1..]) else [v[0]] + Stripped(v[1..])
  }

  /** What is collected from `v` on: the loop stops when it holds exactly eight bytes. */
  function Collected(held: string, v: string): string
    decreases |v|
  {
    if v == "" then held
    else
      var more := if v[0] == '-' then held else held + [v[0]];
      if ByteLength(more) == 8 then more else Collected(more, v[1..])
  }

  function PreviewLabelOf(v: string): string { if Collected("", v) == "" then "preview" else Collected("", v) }

  method PreviewLabel(version: string) returns (r: string)
    ensures r == PreviewLabelOf(version)
  {
    var stripped := "";
    for i := 0 to |version|
      invariant Collected(stripped, version[i..]) == Collected("", version)
    {
      assert version[i..][1..] == version[i + 1..];
      if version[i] != '-' { stripped := stripped + [version[i]]; }
      if ByteLength(stripped) == 8 {
        return stripped;
      }
    }
    return if stripped == "" then "preview" else stripped;
  }

  predicate NoHyphen(s: string) { forall i :: 0 <= i < |s| ==> s[i] != '-' }

  lemma {:induction false} CollectedHasNoHyphen(held: string, v: string)
    requires NoHyphen(held)
    ensures NoHyphen(Collected(held, v))
    decreases |v|
  {
    if v != "" { CollectedHasNoHyphen(if v[0] == '-' then held else held + [v[0]], v[1..]); }
  }

  lemma LabelHasNoHyphen(v: string)
    ensures NoHyphen(PreviewLabelOf(v)) && PreviewLabelOf(v) != ""
  {
    CollectedHasNoHyphen("", v);
  }

  lemma {:induction false} AsciiLength(s: string)
    requires Ascii(s)
    ensures ByteLength(s) == |s|
  {
    if s != "" { AsciiLength(s[..|s| - 1]); }
  }

  predicate Ascii(s: string) { forall i :: 0 <= i < |s| ==> s[i] < 0x80 as char }

  function Take8(s: string): string { if |s| < 8 then s else s[..8] }

  lemma Push(held: string, c: char, rest: string)
    ensures held + ([c] + rest) == (held + [c]) + rest
  {
  }

  lemma {:induction false} AsciiCollected(held: string, v: string)
    requires Ascii(held) && Ascii(v) && |held| < 8
    ensures Collected(held, v) == Take8(held + Stripped(v))
    decreases |v|
  {
    if v == "" {
      assert held + "" == held;
    } else {
      var more := if v[0] == '-' then held else held + [v[0]];
      AsciiLength(more);
      Push(held, v[0], Stripped(v[1..]));
      if |more| < 8 { AsciiCollected(more, v[1..]); } else { TakeAll(more, Stripped(v[1..])); }
    }
  }

  lemma TakeAll(s: string, t: string)
    requires |s| == 8
    ensures Take8(s + t) == s
  {
  }

  /** For an ASCII id the label is its first eight characters other than hyphens. */
  lemma AsciiLabel(v: string)
    requires Ascii(v)
    ensures PreviewLabelOf(v) == if Stripped(v) == "" then "preview" else Take8(Stripped(v))
  {
    AsciiCollected("", v);
    assert "" + Stripped(v) == Stripped(v);
  }

  /** A preview host is never the canonical host of a site. */
  lemma PreviewIsNotCanonical(domain: string, version: string, org: string, app: string, org': string, app': string)
    requires Valid(org) && Valid(app) && Valid(org') && Valid(app')
    ensures PreviewHost(domain, version, org, app) != HostForSite(domain, org', app')
  {
    var lead := PreviewLabelOf(version);
    LabelHasNoHyphen(version);
    var x, y := HostForSite(domain, org, app), app' + "." + domain;
    assert HostForSite(domain, org', app') == org' + "--" + y;
    if PreviewHost(domain, version, org, app) == HostForSite(domain, org', app') {
      SplitAtDouble(lead, x, org', y);
      assert x == (org + "--" + app) + ("." + domain) && y == app' + ("." + domain);
      CutSuffix(org + "--" + app, app', "." + domain);
      assert DoubleAt(app', |org|);
    }
  }

  /** Two preview hosts coincide exactly for the same site and version label. */
  lemma PreviewsCoincideExactly(domain: string, version: string, org: string, app: string,
                                version': string, org': string, app': string)
    requires Valid(org) && Valid(app) && Valid(org') && Valid(app')
    ensures PreviewHost(domain, version, org, app) == PreviewHost(domain, version', org', app') <==>
      PreviewLabelOf(version) == PreviewLabelOf(version') && org == org' && app == app'
  {
    LabelHasNoHyphen(version);
    LabelHasNoHyphen(version');
    if PreviewHost(domain, version, org, app) == PreviewHost(domain, version', org', app') {
      SplitAtDouble(PreviewLabelOf(version), HostForSite(domain, org, app),
                    PreviewLabelOf(version'), HostForSite(domain, org', app'));
      HostIsInjective(domain, org, app, org', app');
    }
  }
}
