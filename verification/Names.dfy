/** Canonical DNS names, and the relation that rules and blocklists use to cover a name. */
module Names {
  import opened Text

  predicate EndsInDot(name: string) {
    name != "" && name[|name| - 1] == '.'
  }

  /** Trim, lower-case, and drop one leading dot. */
  function Bare(name: string): (r: string)
    ensures IsLower(r)
  {
    var low := ToLower(TrimSpace(name));
    if low != "" && low[0] == '.' then low[1..] else low
  }

  function WithDot(name: string): (r: string)
    ensures r == "" || r[|r| - 1] == '.'
    ensures IsLower(name) ==> IsLower(r)
  {
    if name == "" then "" else if EndsInDot(name) then name else name + "."
  }

  function NormalizeName(name: string): (r: string)
    ensures r == "" || r[|r| - 1] == '.'
    ensures IsLower(r)
  {
    hide *;
    WithDot(Bare(name))
  }

  /** What every result of NormalizeName satisfies: empty, or ending in a dot. */
  predicate Dotted(name: string) {
    name == "" || name[|name| - 1] == '.'
  }

  /** The names that a second NormalizeName leaves alone. */
  predicate Canonical(name: string) {
    NormalizeName(name) == name
  }

  /** Lower case, ending in a dot, and starting with neither a dot nor a blank. */
  predicate Clean(name: string) {
    && name != "" && name[|name| - 1] == '.' && name[0] != '.' && !IsSpace(name[0])
    && IsLower(name)
  }

  lemma {:induction false} CleanIsCanonical(name: string)
    requires Clean(name)
    ensures Canonical(name)
  {
    assert TrimSpace(name) == name;
    assert Bare(name) == name;
  }

  lemma {:induction false} CanonicalIsClean(name: string)
    requires name != "" && Canonical(name)
    ensures Clean(name)
  {
    TrimLeftOnly(name);
    var n := Bare(name);
    assert EndsInDot(n) || n == "";
    assert name == n;
  }

  /** The fixed points of NormalizeName. */
  lemma {:induction false} CanonicalShape(name: string)
    ensures Canonical(name) <==> name == "" || Clean(name)
  {
    if name == "" {
      assert TrimSpace(name) == "";
    } else if Canonical(name) {
      CanonicalIsClean(name);
    } else if Clean(name) {
      CleanIsCanonical(name);
    }
  }

  lemma {:induction false} NormalizedFirst(name: string)
    requires NormalizeName(name) != ""
    ensures var t := TrimSpace(name);
            var r := NormalizeName(name);
            && t != "" && (t[0] == '.' ==> |t| >= 2)
            && r[0] == LowerChar(if t[0] == '.' then t[1] else t[0])
  {
    var low := ToLower(TrimSpace(name));
    assert low != "";
    assert low[0] == '.' <==> TrimSpace(name)[0] == '.';
    assert Bare(name) == if low[0] == '.' then low[1..] else low;
  }

  /** Normalising twice equals normalising once, except on a leading dot that another dot or a blank follows. */
  lemma {:induction false} NormalizeTwice(name: string)
    ensures Canonical(NormalizeName(name)) <==>
            var t := TrimSpace(name);
            !(|t| >= 2 && t[0] == '.' && (t[1] == '.' || IsSpace(t[1])))
  {
    var r := NormalizeName(name);
    CanonicalShape(r);
    if r != "" {
      NormalizedFirst(name);
    }
  }

  /** The case of letters never matters to a name. */
  lemma {:induction false} NormalizeDropsCase(a: string, b: string)
    requires SameButCase(a, b)
    ensures NormalizeName(a) == NormalizeName(b)
  {
    TrimSpaceKeepsCase(a, b);
    CaseIsDropped(TrimSpace(a), TrimSpace(b));
    hide TrimSpace, ToLower, SameButCase;
  }

  /** "", or one dot. */
  predicate MayBeDot(s: string) {
    s == "" || s == "."
  }

  /**
   A name in any case, between any blanks, becomes the name in lower case: one dot before it is dropped, if there is one,
   and it ends with the dot that was behind it, or with a new one.
   */
  lemma {:induction false} NormalizeIs(before: string, lead: string, host: string, tail: string, after: string,
                                       text: string)
    requires AllBlank(before) && AllBlank(after) && MayBeDot(lead) && MayBeDot(tail)
    requires host != "" && IsLower(host) && Trimmed(lead + host + tail) && (lead == "" ==> host[0] != '.')
    requires SameButCase(text, before + lead + host + tail + after)
    ensures NormalizeName(text) == if tail == "" && host[|host| - 1] == '.' then host else host + "."
  {
    var core := lead + host + tail;
    assert before + lead + host + tail + after == before + core + after;
    LeadIsDropped(lead, host, tail);
    hide *;
    NormalizeDropsCase(text, before + core + after);
    TrimSpaceIs(before, core, after);
    BareCore(before + core + after, core);
    WithDotOf(host, tail);
  }

  lemma {:induction false} LeadIsDropped(lead: string, host: string, tail: string)
    requires MayBeDot(lead) && MayBeDot(tail) && IsLower(host) && host != "" && (lead == "" ==> host[0] != '.')
    ensures var core := lead + host + tail;
            core != "" && IsLower(core) && (if core[0] == '.' then core[1..] else core) == host + tail
  {
    var core := lead + host + tail;
    if lead == "" {
      assert core == host + tail && core[0] == host[0];
    } else {
      assert core[1..] == host + tail && core[0] == '.';
    }
  }

  /** Dots around a trimmed host leave it trimmed. */
  lemma {:induction false} DottedHost(lead: string, host: string, tail: string)
    requires MayBeDot(lead) && MayBeDot(tail) && Trimmed(host) && host != ""
    ensures Trimmed(lead + host + tail)
  {
    var core := lead + host + tail;
    assert core[0] == (if lead == "" then host[0] else '.');
    assert core[|core| - 1] == if tail == "" then host[|host| - 1] else '.';
  }

  lemma {:induction false} BareCore(text: string, core: string)
    requires TrimSpace(text) == core && core != "" && IsLower(core)
    ensures NormalizeName(text) == WithDot(if core[0] == '.' then core[1..] else core)
  {
    hide TrimSpace, WithDot, IsLower;
  }

  lemma {:induction false} WithDotOf(host: string, tail: string)
    requires MayBeDot(tail) && host != ""
    ensures WithDot(host + tail) == if tail == "" && host[|host| - 1] == '.' then host else host + "."
  {
    assert tail == "" ==> host + tail == host;
  }

  /** Only blanks, with one dot at most between them, become the empty name. */
  lemma {:induction false} NormalizeIsEmpty(name: string)
    ensures NormalizeName(name) == "" <==> TrimSpace(name) == "" || TrimSpace(name) == "."
  {
    var low := ToLower(TrimSpace(name));
    assert low == "." <==> TrimSpace(name) == "." by {
      if low == "." {
        assert LowerChar(TrimSpace(name)[0]) == '.';
      }
    }
    hide TrimSpace, ToLower;
  }

  /** The rule target or blocklist domain `target` covers `name`. */
  predicate Covers(target: string, name: string) {
    name == target || HasSuffix(name, "." + target)
  }

  /** The suffix test, by position. */
  predicate Below(target: string, name: string) {
    |target| < |name| && name[|name| - |target| - 1] == '.' && name[|name| - |target|..] == target
  }

  lemma {:induction false} SuffixIsBelow(target: string, name: string)
    ensures HasSuffix(name, "." + target) <==> Below(target, name)
    ensures Covers(target, name) <==> name == target || Below(target, name)
  {
    if |target| < |name| {
      var k := |name| - |target| - 1;
      assert name[k..] == [name[k]] + name[k + 1..];
    }
  }

  lemma {:induction false} LeadingDotIsDropped(name: string)
    requires name != "" && name[0] == '.' && IsLower(name) && !IsSpace(name[|name| - 1])
    ensures NormalizeName(name) == WithDot(name[1..])
  {
    assert TrimSpace(name) == name;
    assert forall i :: 0 <= i < |name| ==> LowerChar(name[i]) == name[i];
    assert ToLower(name) == name;
    hide WithDot;
  }

  /** On any name with two leading dots, such as "..com", a second normalisation drops the second dot. */
  lemma {:induction false} NormalizeIsNotIdempotent(name: string, once: string)
    requires |name| > 2 && name[0] == '.' && name[1] == '.' && IsLower(name) && !IsSpace(name[|name| - 1]) && !EndsInDot(name)
    requires once == NormalizeName(name)
    ensures once == name[1..] + "." && NormalizeName(once) == once[1..]
  {
    hide NormalizeName, IsLower, TrimSpace, ToLower;
    LeadingDotIsDropped(name);
    assert once == name[1..] + ".";
    assert once[0] == '.' && once[|once| - 1] == '.' && once != "";
    LeadingDotIsDropped(once);
    assert EndsInDot(once[1..]);
  }

  function ParentDomain(name: string): string {
    var n := TrimSuffix(name, ".");
    var idx := IndexAny(n, ".");
    if idx == |n| then "" else n[idx + 1..] + "."
  }

  lemma {:induction false} ParentIsShorter(name: string)
    requires Dotted(name) && name != ""
    ensures |ParentDomain(name)| < |name| && Dotted(ParentDomain(name))
  {
  }

  lemma {:induction false} FirstDot(name: string)
    requires name != "" && name[|name| - 1] == '.'
    ensures var i, idx := IndexAny(name[..|name| - 1], "."), IndexAny(name, ".");
            i == idx && idx < |name| && name[idx] == '.'
  {
    var n := name[..|name| - 1];
    var i, idx := IndexAny(n, "."), IndexAny(name, ".");
    hide IndexAny;
    assert name[|name| - 1] in ".";
    assert i < |n| ==> n[i] == name[i];
    assert idx < |n| ==> n[idx] == name[idx];
  }

  lemma {:induction false} CutAtDot(name: string, i: nat)
    requires name != "" && name[|name| - 1] == '.' && i < |name| - 1
    ensures name[..|name| - 1][i + 1..] + "." == name[i + 1..]
  {
  }

  lemma {:induction false} ParentIsSuffix(name: string)
    requires Dotted(name) && name != ""
    ensures var idx := IndexAny(name, ".");
            && idx < |name| && name[idx] == '.'
            && ParentDomain(name) == name[idx + 1..]
  {
    FirstDot(name);
    var i := IndexAny(name[..|name| - 1], ".");
    if i < |name| - 1 {
      CutAtDot(name, i);
    }
    assert TrimSuffix(name, ".") == name[..|name| - 1];
    hide IndexAny, TrimSuffix;
  }

  lemma {:induction false} BelowFirstLabel(d: string, name: string, dot: nat)
    requires dot < |name| && name[dot] == '.' && forall j :: 0 <= j < dot ==> name[j] != '.'
    ensures Below(d, name) <==> d == name[dot + 1..] || Below(d, name[dot + 1..])
  {
    if |d| < |name| {
      var p, k := name[dot + 1..], |name| - |d| - 1;
      assert |d| < |p| ==> p[|p| - |d|..] == name[k + 1..];
    }
  }

  /** One step up loses exactly the name itself from the set of non-empty domains that cover it. */
  lemma {:induction false} ParentCovers(d: string, name: string)
    requires Dotted(name) && name != "" && d != ""
    ensures Covers(d, name) <==> d == name || Covers(d, ParentDomain(name))
  {
    ParentIsSuffix(name);
    SuffixIsBelow(d, name);
    SuffixIsBelow(d, ParentDomain(name));
    BelowFirstLabel(d, name, IndexAny(name, "."));
    hide *;
  }

  /** The candidates the blocklist walk tries, in order. */
  function Ancestors(name: string): (r: seq<string>)
    requires Dotted(name)
    ensures name != "" ==> r != [] && r[0] == name
    decreases |name|
  {
    if name == "" then [] else
      ParentIsShorter(name);
      [name] + Ancestors(ParentDomain(name))
  }

  lemma {:induction false} AncestorsCover(name: string, d: string)
    requires Dotted(name)
    ensures d in Ancestors(name) <==> d != "" && Covers(d, name)
    decreases |name|
  {
    if name == "" {
      SuffixIsBelow(d, name);
    } else {
      ParentIsShorter(name);
      AncestorsCover(ParentDomain(name), d);
      if d != "" { ParentCovers(d, name); }
      hide ParentDomain, Covers;
    }
  }

  ghost predicate Shrinking(chain: seq<string>) {
    forall i, j :: 0 <= i < j < |chain| ==> |chain[i]| > |chain[j]|
  }

  lemma {:induction false} ShrinkingStep(name: string, rest: seq<string>)
    requires Shrinking(rest) && (rest != [] ==> |rest[0]| < |name|)
    ensures Shrinking([name] + rest)
  {
  }

  lemma {:induction false} AncestorsShrink(name: string)
    requires Dotted(name)
    ensures Shrinking(Ancestors(name))
    decreases |name|
  {
    if name != "" {
      var p := ParentDomain(name);
      ParentIsShorter(name);
      AncestorsShrink(p);
      ShrinkingStep(name, Ancestors(p));
      hide Shrinking, ParentDomain;
    }
  }

  /** The walk visits exactly the non-empty domains that cover the name, each strictly longer than the next. */
  lemma {:induction false} WalkVisitsCoverers(name: string)
    requires Dotted(name)
    ensures forall d :: d in Ancestors(name) <==> d != "" && Covers(d, name)
    ensures Shrinking(Ancestors(name))
  {
    forall d
      ensures d in Ancestors(name) <==> d != "" && Covers(d, name)
    {
      AncestorsCover(name, d);
    }
    AncestorsShrink(name);
  }

  /** Two domains that cover one name lie on one chain. */
  lemma {:induction false} CoverersAreNested(a: string, b: string, name: string)
    requires Covers(a, name) && Covers(b, name) && |a| <= |b|
    ensures Covers(a, b)
  {
    assert a == name[|name| - |a|..] && b == name[|name| - |b|..];
    if |a| < |b| {
      var k := |name| - |a| - 1;
      assert name[k..] == "." + a;
      assert b[|b| - |a| - 1..] == name[k..];
    }
  }

  lemma {:induction false} CoversIsTransitive(a: string, b: string, name: string)
    requires Covers(a, b) && Covers(b, name)
    ensures Covers(a, name)
  {
    if a != b && b != name {
      assert name[|name| - |b|..] == b;
      assert b[|b| - |a| - 1..] == "." + a;
      assert name[|name| - |a| - 1..] == b[|b| - |a| - 1..];
    }
  }
}
