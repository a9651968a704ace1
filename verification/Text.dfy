/** The parts of Go's `strings` package the program uses, on ASCII text. */
module Text {

  datatype Option<+T> = None | Some(value: T)

  datatype Result<+T, +E> = Ok(value: T) | Err(error: E)

  /** The ASCII characters that `unicode.IsSpace` accepts: blank, and U+0009 to U+000D. */
  predicate IsSpace(c: char) {
    c == ' ' || '\t' <= c <= '\r'
  }

  /** The number of blanks a text starts with. */
  function Leading(s: string): (n: nat)
    ensures n <= |s|
    ensures forall i :: 0 <= i < n ==> IsSpace(s[i])
    ensures n < |s| ==> !IsSpace(s[n])
  {
    if s != "" && IsSpace(s[0]) then 1 + Leading(s[1..]) else 0
  }

  /** The length of a text without the blanks it ends with. */
  function Printed(s: string): (n: nat)
    ensures n <= |s|
    ensures forall i :: n <= i < |s| ==> IsSpace(s[i])
    ensures n > 0 ==> !IsSpace(s[n - 1])
  {
    if s != "" && IsSpace(s[|s| - 1]) then Printed(s[..|s| - 1]) else |s|
  }

  /** No white space at either end. */
  predicate Trimmed(s: string) {
    s == "" || (!IsSpace(s[0]) && !IsSpace(s[|s| - 1]))
  }

  function TrimSpace(s: string): (r: string)
    ensures Trimmed(r)
    ensures Trimmed(s) ==> r == s
  {
    if Leading(s) == |s| then "" else s[Leading(s)..Printed(s)]
  }

  function LowerChar(c: char): (r: char)
    ensures !('A' <= r <= 'Z')
    ensures !('A' <= c <= 'Z') ==> r == c
    ensures 'A' <= c <= 'Z' ==> 'a' <= r <= 'z' && r as int - 'a' as int == c as int - 'A' as int
  {
    if 'A' <= c <= 'Z' then ((c as int) + 32) as char else c
  }

  function UpperChar(c: char): (r: char)
    ensures !('a' <= r <= 'z')
    ensures !('a' <= c <= 'z') ==> r == c
    ensures 'a' <= c <= 'z' ==> 'A' <= r <= 'Z' && r as int - 'A' as int == c as int - 'a' as int
  {
    if 'a' <= c <= 'z' then ((c as int) - 32) as char else c
  }

  predicate IsLower(s: string) {
    forall i :: 0 <= i < |s| ==> !('A' <= s[i] <= 'Z')
  }

  function ToLower(s: string): (r: string)
    ensures |r| == |s|
    ensures forall i :: 0 <= i < |s| ==> r[i] == LowerChar(s[i])
    ensures IsLower(r)
    ensures IsLower(s) ==> r == s
  {
    seq(|s|, i requires 0 <= i < |s| => LowerChar(s[i]))
  }

  predicate IsUpper(s: string) {
    forall i :: 0 <= i < |s| ==> !('a' <= s[i] <= 'z')
  }

  function ToUpper(s: string): (r: string)
    ensures |r| == |s|
    ensures forall i :: 0 <= i < |s| ==> r[i] == UpperChar(s[i])
    ensures IsUpper(r)
    ensures IsUpper(s) ==> r == s
  {
    seq(|s|, i requires 0 <= i < |s| => UpperChar(s[i]))
  }

  /** Trimming a text that ends in a printable character only cuts at the left. */
  lemma {:induction false} TrimLeftOnly(s: string)
    requires s != "" && !IsSpace(s[|s| - 1])
    ensures TrimSpace(s) != "" && |TrimSpace(s)| <= |s| && TrimSpace(s)[|TrimSpace(s)| - 1] == s[|s| - 1]
    ensures IsSpace(s[0]) ==> |TrimSpace(s)| < |s|
  {
    assert Printed(s) == |s|;
    assert Leading(s) < |s|;
  }

  predicate AllBlank(s: string) {
    forall i :: 0 <= i < |s| ==> IsSpace(s[i])
  }

  /** Trimming takes the blanks around a text, and nothing of the text. */
  lemma {:induction false} TrimSpaceIs(before: string, core: string, after: string)
    requires AllBlank(before) && AllBlank(after) && Trimmed(core)
    ensures TrimSpace(before + core + after) == core
  {
    var s := before + core + after;
    if core == "" {
      assert forall i :: 0 <= i < |s| ==> IsSpace(s[i]);
      assert Leading(s) == |s|;
    } else {
      assert s[|before|] == core[0] && s[|before| + |core| - 1] == core[|core| - 1];
      assert forall i :: 0 <= i < |before| ==> s[i] == before[i];
      assert forall i :: |before| + |core| <= i < |s| ==> s[i] == after[i - |before| - |core|];
      assert Leading(s) == |before| && Printed(s) == |before| + |core|;
      assert s[|before|..|before| + |core|] == core;
    }
  }

  // ---------------------------------------------------------------- the case of letters

  /** The same character, or the two cases of one letter. */
  predicate SameLetter(c: char, d: char) {
    || c == d
    || ('A' <= c <= 'Z' && 'a' <= d <= 'z' && c as int - 'A' as int == d as int - 'a' as int)
    || ('A' <= d <= 'Z' && 'a' <= c <= 'z' && d as int - 'A' as int == c as int - 'a' as int)
  }

  /** Texts that differ in the case of letters alone. */
  predicate SameButCase(a: string, b: string) {
    |a| == |b| && forall i :: 0 <= i < |a| ==> SameLetter(a[i], b[i])
  }

  lemma {:induction false} CaseIsDropped(a: string, b: string)
    requires SameButCase(a, b)
    ensures ToLower(a) == ToLower(b) && ToUpper(a) == ToUpper(b)
  {
    forall i | 0 <= i < |a|
      ensures LowerChar(a[i]) == LowerChar(b[i]) && UpperChar(a[i]) == UpperChar(b[i])
    {
      assert SameLetter(a[i], b[i]);
    }
  }

  /** Texts differ in case alone exactly if they have one lower case. */
  lemma {:induction false} SameButCaseIff(a: string, b: string)
    ensures SameButCase(a, b) <==> ToLower(a) == ToLower(b)
  {
    if SameButCase(a, b) {
      CaseIsDropped(a, b);
    }
    if ToLower(a) == ToLower(b) {
      forall i | 0 <= i < |a|
        ensures SameLetter(a[i], b[i])
      {
        assert LowerChar(a[i]) == ToLower(a)[i] == LowerChar(b[i]);
      }
    }
  }

  lemma {:induction false} SameBlanks(a: string, b: string)
    requires SameButCase(a, b)
    ensures forall i :: 0 <= i < |a| ==> (IsSpace(a[i]) <==> IsSpace(b[i]))
  {
    forall i | 0 <= i < |a|
      ensures IsSpace(a[i]) <==> IsSpace(b[i])
    {
      assert SameLetter(a[i], b[i]);
    }
  }

  lemma {:induction false} SameEnds(a: string, b: string)
    requires |a| == |b| && forall i :: 0 <= i < |a| ==> (IsSpace(a[i]) <==> IsSpace(b[i]))
    ensures Leading(a) == Leading(b) && Printed(a) == Printed(b)
  {
    hide IsSpace;
  }

  lemma {:induction false} TrimSpaceKeepsCase(a: string, b: string)
    requires SameButCase(a, b)
    ensures SameButCase(TrimSpace(a), TrimSpace(b))
  {
    SameBlanks(a, b);
    SameEnds(a, b);
    hide SameLetter, IsSpace, Leading, Printed;
  }

  predicate HasPrefix(s: string, prefix: string) {
    prefix <= s
  }

  predicate HasSuffix(s: string, suffix: string) {
    |suffix| <= |s| && s[|s| - |suffix|..] == suffix
  }

  function TrimPrefix(s: string, prefix: string): string {
    if HasPrefix(s, prefix) then s[|prefix|..] else s
  }

  function TrimSuffix(s: string, suffix: string): string {
    if HasSuffix(s, suffix) then s[..|s| - |suffix|] else s
  }

  /** The first position of a character of `chars`, or |s| when there is none. */
  function IndexAny(s: string, chars: string): (i: nat)
    ensures i <= |s|
    ensures i < |s| ==> s[i] in chars
    ensures forall j :: 0 <= j < i ==> s[j] !in chars
  {
    if s == "" || s[0] in chars then 0 else 1 + IndexAny(s[1..], chars)
  }

  lemma {:induction false} IndexAt(a: string, c: char, b: string, chars: string)
    requires c in chars && forall i :: 0 <= i < |a| ==> a[i] !in chars
    ensures IndexAny(a + [c] + b, chars) == |a|
  {
    var s := a + [c] + b;
    assert s[|a|] == c && forall i :: 0 <= i < |a| ==> s[i] == a[i];
  }

  predicate ContainsAny(s: string, chars: string) {
    exists i :: 0 <= i < |s| && s[i] in chars
  }

  /** Does `part` occur in `s`? */
  predicate Contains(s: string, part: string) {
    exists i :: 0 <= i <= |s| && HasPrefix(s[i..], part)
  }

  lemma {:induction false} ContainsAnyIff(s: string, chars: string)
    ensures ContainsAny(s, chars) <==> exists c :: c in s && c in chars
  {
    if c :| c in s && c in chars {
      var i :| 0 <= i < |s| && s[i] == c;
    }
  }

  lemma {:induction false} ContainsIff(s: string, part: string)
    ensures Contains(s, part) <==> exists before, after :: s == before + part + after
  {
    if Contains(s, part) {
      var i :| 0 <= i <= |s| && HasPrefix(s[i..], part);
      assert s == s[..i] + part + s[i + |part|..];
    }
    if before, after :| s == before + part + after {
      assert s[|before|..] == part + after;
      assert HasPrefix(s[|before|..], part);
    }
  }

  // ---------------------------------------------------------------- the order of texts

  /** At position k the texts part, and `a` has ended or has the smaller byte. */
  predicate PartAt(a: string, b: string, k: nat) {
    k < |b| && k <= |a| && a[..k] == b[..k] && (k == |a| || a[k] < b[k])
  }

  /** The order in which SQLite compares texts. */
  predicate Less(a: string, b: string) {
    exists k: nat :: k < |b| && PartAt(a, b, k)
  }

  lemma {:induction false} LessIsStrict(a: string, b: string)
    requires Less(a, b)
    ensures a != b && !Less(b, a)
  {
    var k: nat :| k < |b| && PartAt(a, b, k);
    forall j: nat | j < |a|
      ensures !PartAt(b, a, j)
    {
      if j < k {
        assert a[j] == a[..k][j] && b[j] == b[..k][j];
      } else if k < j <= |b| {
        assert a[k] == a[..j][k] && b[k] == b[..j][k];
      }
    }
  }

  lemma {:induction false} LessIsTotal(a: string, b: string)
    ensures a == b || Less(a, b) || Less(b, a)
  {
    var k := Shared(a, b);
    if k < |b| && (k == |a| || a[k] < b[k]) {
      assert PartAt(a, b, k);
    } else if k < |a| {
      assert PartAt(b, a, k);
    }
  }

  /** The length of the common start. */
  function Shared(a: string, b: string): (k: nat)
    ensures k <= |a| && k <= |b| && a[..k] == b[..k] && (k < |a| && k < |b| ==> a[k] != b[k])
  {
    if a == "" || b == "" || a[0] != b[0] then 0 else
      var k := Shared(a[1..], b[1..]);
      assert a[..k + 1] == [a[0]] + a[1..][..k] && b[..k + 1] == [b[0]] + b[1..][..k];
      k + 1
  }

  lemma {:induction false} LessIsTransitive(a: string, b: string, c: string)
    requires Less(a, b) && Less(b, c)
    ensures Less(a, c)
  {
    var j: nat :| j < |b| && PartAt(a, b, j);
    var k: nat :| k < |c| && PartAt(b, c, k);
    var m := if j < k then j else k;
    assert a[..m] == a[..j][..m] && b[..m] == b[..j][..m] && b[..m] == b[..k][..m] && c[..m] == c[..k][..m];
    if j < k {
      assert b[j] == b[..k][j] && c[j] == c[..k][j];
    } else if k < j {
      assert a[k] == a[..j][k] && b[k] == b[..j][k];
    }
    assert PartAt(a, c, m);
  }
}
