/**
 DNS labels made from branch names (internal/core/domain/normalize.go). Lower-casing and the short SHA-256 hash are
 parameters.
 */
module Labels {

  predicate LabelChar(c: char) {
    'a' <= c <= 'z' || '0' <= c <= '9' || c == '-'
  }

  predicate Hex(c: char) {
    'a' <= c <= 'f' || '0' <= c <= '9'
  }

  /** Lower-casing leaves lower-case letters, digits and dashes alone. */
  ghost predicate LowerCasing(lower: char -> char) {
    forall c :: LabelChar(c) ==> lower(c) == c
  }

  /** The short hash is six lower-case hexadecimal digits. */
  ghost predicate ShortHash(hash: string -> string) {
    forall s :: |hash(s)| == 6 && forall i :: 0 <= i < 6 ==> Hex(hash(s)[i])
  }

  // ---------- the steps ----------

  function Lowered(s: string, lower: char -> char): string {
    if s == "" then "" else [lower(s[0])] + Lowered(s[1..], lower)
  }

  function Dashed(s: string): string {
    if s == "" then "" else [if s[0] in {'/', '_'} then '-' else s[0]] + Dashed(s[1..])
  }

  function Stripped(s: string): string {
    if s == "" then ""
    else if LabelChar(s[0]) then [s[0]] + Stripped(s[1..])
    else Stripped(s[1..])
  }

  /** Every run of dashes becomes one dash. */
  function Collapsed(s: string): string {
    if |s| < 2 then s
    else if s[0] == '-' && s[1] == '-' then Collapsed(s[1..])
    else [s[0]] + Collapsed(s[1..])
  }

  function TrimLeft(s: string): string {
    if s != "" && s[0] == '-' then TrimLeft(s[1..]) else s
  }

  function TrimRight(s: string): string {
    if s != "" && s[|s| - 1] == '-' then TrimRight(s[..|s| - 1]) else s
  }

  function Cleaned(branch: string, lower: char -> char): string {
    TrimRight(TrimLeft(Collapsed(Stripped(Dashed(Lowered(branch, lower))))))
  }

  function Normalize(branch: string, maxLength: int, lower: char -> char, hash: string -> string): string {
    var s := Cleaned(branch, lower);
    if s == "" then hash(branch)
    else if |s| <= maxLength then s
    else
      var suffix := "-" + hash(branch);
      var truncateTo := maxLength - |suffix|;
      if truncateTo <= 0 then hash(branch)
      else TrimRight(s[..truncateTo]) + suffix
  }

  // ---------- what the steps leave ----------

  predicate LabelChars(s: string) {
    forall i :: 0 <= i < |s| ==> LabelChar(s[i])
  }

  predicate NoDoubleDash(s: string) {
    forall i :: 0 <= i < |s| - 1 ==> s[i] != '-' || s[i + 1] != '-'
  }

  /** Section 2.3.4 of RFC 1035 and section 2.1 of RFC 1123: letters, digits and inner dashes, here never two in a row. */
  predicate Label(s: string) {
    && s != "" && LabelChars(s) && NoDoubleDash(s)
    && s[0] != '-' && s[|s| - 1] != '-'
  }

  lemma {:induction false} StrippedChars(s: string)
    ensures LabelChars(Stripped(s))
    ensures LabelChars(s) ==> Stripped(s) == s
  {
    if s != "" {
      StrippedChars(s[1..]);
      assert s == [s[0]] + s[1..];
      if LabelChars(s) { assert LabelChar(s[0]); }
    }
  }

  lemma {:induction false} CollapsedDashes(s: string)
    requires LabelChars(s)
    ensures LabelChars(Collapsed(s)) && NoDoubleDash(Collapsed(s))
    ensures s != "" ==> Collapsed(s) != "" && Collapsed(s)[0] == s[0]
    ensures NoDoubleDash(s) ==> Collapsed(s) == s
  {
    if |s| >= 2 {
      assert LabelChar(s[0]);
      assert s == [s[0]] + s[1..];
      CollapsedDashes(s[1..]);
      if NoDoubleDash(s) { assert s[0] != '-' || s[0 + 1] != '-'; }
    }
  }

  predicate Tidy(s: string) {
    LabelChars(s) && NoDoubleDash(s)
  }

  lemma TidySlice(s: string, i: nat, j: nat)
    requires Tidy(s) && i <= j <= |s|
    ensures Tidy(s[i..j])
  {
    var t := s[i..j];
    forall k | 0 <= k < |t| ensures LabelChar(t[k]) { assert t[k] == s[i + k]; }
    forall k | 0 <= k < |t| - 1 ensures t[k] != '-' || t[k + 1] != '-' {
      assert s[i + k] != '-' || s[i + k + 1] != '-';
    }
  }

  lemma {:induction false} TrimmedLeft(s: string)
    requires Tidy(s)
    ensures Tidy(TrimLeft(s))
    ensures TrimLeft(s) != "" ==> TrimLeft(s)[0] != '-'
  {
    if s != "" && s[0] == '-' {
      TidySlice(s, 1, |s|);
      TrimmedLeft(s[1..]);
    }
  }

  /** Trimming on the right keeps a tidy prefix, and one that starts without a dash is never used up. */
  lemma {:induction false} TrimmedRight(s: string)
    requires Tidy(s)
    ensures TrimRight(s) <= s
    ensures Tidy(TrimRight(s))
    ensures TrimRight(s) != "" ==> TrimRight(s)[|TrimRight(s)| - 1] != '-'
    ensures s != "" && s[0] != '-' ==> TrimRight(s) != ""
  {
    if s != "" && s[|s| - 1] == '-' {
      TidySlice(s, 0, |s| - 1);
      TrimmedRight(s[..|s| - 1]);
    }
  }

  lemma CleanedIsLabel(branch: string, lower: char -> char)
    ensures Cleaned(branch, lower) == "" || Label(Cleaned(branch, lower))
  {
    var t := Stripped(Dashed(Lowered(branch, lower)));
    StrippedChars(Dashed(Lowered(branch, lower)));
    CollapsedDashes(t);
    TrimmedLeft(Collapsed(t));
    TrimmedRight(TrimLeft(Collapsed(t)));
  }

  lemma {:induction false} LabelIsLowered(s: string, lower: char -> char)
    requires LowerCasing(lower) && LabelChars(s)
    ensures Lowered(s, lower) == s && Dashed(s) == s
  {
    if s != "" {
      assert LabelChar(s[0]);
      assert s == [s[0]] + s[1..];
      LabelIsLowered(s[1..], lower);
    }
  }

  lemma LabelIsCleaned(s: string, lower: char -> char)
    requires LowerCasing(lower) && Label(s)
    ensures Cleaned(s, lower) == s
  {
    LabelIsLowered(s, lower);
    StrippedChars(s);
    CollapsedDashes(s);
  }

  // ---------- the five steps in one ----------

  predicate Separator(c: char) {
    c == '-' || c == '/' || c == '_'
  }

  predicate Alphanumeric(c: char) {
    'a' <= c <= 'z' || '0' <= c <= '9'
  }

  /**
   The label in one pass: letters and digits are kept, one dash is put between two of them wherever separators lie
   between, and everything else is left out. begun: something has been kept; apart: a separator has come since.
   */
  function OnePass(s: string, begun: bool, apart: bool): string {
    if s == "" then ""
    else if Alphanumeric(s[0]) then (if begun && apart then "-" else "") + [s[0]] + OnePass(s[1..], true, false)
    else OnePass(s[1..], begun, apart || Separator(s[0]))
  }

  lemma {:induction false} OnlyLabelChars(s: string, begun: bool, apart: bool)
    ensures OnePass(s, begun, apart) == OnePass(Stripped(Dashed(s)), begun, apart)
  {
    if s != "" {
      var c, rest := if s[0] in {'/', '_'} then '-' else s[0], Dashed(s[1..]);
      assert Dashed(s) == [c] + rest && ([c] + rest)[1..] == rest;
      OnlyLabelChars(s[1..], true, false);
      OnlyLabelChars(s[1..], begun, apart || Separator(s[0]));
      if LabelChar(c) { assert ([c] + Stripped(rest))[1..] == Stripped(rest); }
    }
  }

  lemma {:induction false} TrimAfter(p: string, s: string)
    requires p != "" && p[|p| - 1] != '-'
    ensures TrimRight(p + s) == p + TrimRight(s)
  {
    var t := p + s;
    if s == "" {
      assert t == p;
    } else if s[|s| - 1] == '-' {
      assert t[..|t| - 1] == p + s[..|s| - 1];
      TrimAfter(p, s[..|s| - 1]);
    }
  }

  function Dash(apart: bool): string {
    if apart then "-" else ""
  }

  /** Inside a label, with or without a dash pending. */
  lemma {:induction false} CollapseTrims(t: string, apart: bool)
    requires LabelChars(t)
    ensures OnePass(t, true, apart) == TrimRight(Collapsed(Dash(apart) + t))
  {
    hide Collapsed, TrimRight;
    if t == "" {
      NothingKept(apart);
    } else {
      var rest := t[1..];
      assert LabelChar(t[0]);
      if t[0] == '-' {
        CollapseTrims(rest, true);
        assert Dash(true) + rest == t;
        DashOnce(t, apart);
      } else {
        CollapseTrims(rest, false);
        assert Dash(false) + rest == rest;
        KeptAfter(t, apart);
      }
    }
  }

  lemma NothingKept(apart: bool)
    ensures TrimRight(Collapsed(Dash(apart) + "")) == ""
  {
    assert Dash(apart) + "" == Dash(apart);
    assert "-"[..0] == "";
  }

  lemma DashOnce(t: string, apart: bool)
    requires t != "" && t[0] == '-'
    ensures Collapsed(Dash(apart) + t) == Collapsed(t)
  {
    var s := Dash(apart) + t;
    if apart { assert s[1..] == t; } else { assert s == t; }
  }

  lemma KeptAfter(t: string, apart: bool)
    requires t != "" && t[0] != '-'
    ensures TrimRight(Collapsed(Dash(apart) + t)) == Dash(apart) + [t[0]] + TrimRight(Collapsed(t[1..]))
  {
    hide TrimRight;
    Kept(t);
    var s, p, tail := Dash(apart) + t, Dash(apart) + [t[0]], Collapsed(t[1..]);
    if apart { assert s[1..] == t; } else { assert s == t; }
    assert Collapsed(s) == p + tail;
    TrimAfter(p, tail);
  }

  lemma Kept(t: string)
    requires t != "" && t[0] != '-'
    ensures Collapsed(t) == [t[0]] + Collapsed(t[1..])
  {
    if |t| == 1 { assert t[1..] == "" && t == [t[0]]; }
  }

  lemma {:induction false} TrimsFromTheStart(t: string, apart: bool)
    requires LabelChars(t)
    ensures OnePass(t, false, apart) == TrimRight(TrimLeft(Collapsed(t)))
  {
    if t != "" {
      var rest := t[1..];
      assert t == [t[0]] + rest && LabelChar(t[0]);
      if t[0] == '-' {
        TrimsFromTheStart(rest, true);
        DashIsTrimmed(t);
      } else {
        CollapseTrims(rest, false);
        assert "" + rest == rest;
        Kept(t);
        TrimAfter([t[0]], Collapsed(rest));
      }
    }
  }

  lemma DashIsTrimmed(t: string)
    requires t != "" && t[0] == '-'
    ensures TrimLeft(Collapsed(t)) == TrimLeft(Collapsed(t[1..]))
  {
    if |t| == 1 {
      assert t == "-" && t[1..] == "";
    } else if t[1] != '-' {
      assert ([t[0]] + Collapsed(t[1..]))[1..] == Collapsed(t[1..]);
    }
  }

  /** Main result: lower-casing, replacing, stripping, collapsing and trimming come to one pass over the lower-cased name. */
  lemma CleanedIsOnePass(branch: string, lower: char -> char)
    ensures Cleaned(branch, lower) == OnePass(Lowered(branch, lower), false, false)
  {
    var s := Lowered(branch, lower);
    OnlyLabelChars(s, false, false);
    StrippedChars(Dashed(s));
    TrimsFromTheStart(Stripped(Dashed(s)), false);
  }

  /** Lower-casing goes character by character. */
  lemma {:induction false} LoweredEach(s: string, lower: char -> char)
    ensures |Lowered(s, lower)| == |s| && forall i :: 0 <= i < |s| ==> Lowered(s, lower)[i] == lower(s[i])
  {
    if s != "" { LoweredEach(s[1..], lower); }
  }

  /**
   Main result: what is kept of a branch. A name that leaves nothing becomes its hash; one that fits is the one pass; one
   that does not is cut as late as the hash allows, but for a dash that would stand double, and ends in it.
   */
  lemma NormalizeKeeps(branch: string, maxLength: int, lower: char -> char, hash: string -> string)
    requires ShortHash(hash) && maxLength >= 8
    ensures var text := Normalize(branch, maxLength, lower, hash);
      var pass := OnePass(Lowered(branch, lower), false, false);
      if pass == "" then text == hash(branch)
      else if |pass| <= maxLength then text == pass
      else
        var cut := if pass[maxLength - 8] == '-' then maxLength - 8 else maxLength - 7;
        text == pass[..cut] + "-" + hash(branch)
  {
    hide Cleaned, OnePass;
    CleanedIsOnePass(branch, lower);
    CleanedIsLabel(branch, lower);
    var s := Cleaned(branch, lower);
    if |s| > maxLength {
      CutOnce(s, maxLength - 7);
      assert TrimRight(s[..maxLength - 7]) + ("-" + hash(branch)) == TrimRight(s[..maxLength - 7]) + "-" + hash(branch);
    }
  }

  lemma CutOnce(s: string, n: nat)
    requires Label(s) && 0 < n < |s|
    ensures TrimRight(s[..n]) == if s[n - 1] == '-' then s[..n - 1] else s[..n]
  {
    if s[n - 1] == '-' {
      var m: nat := n - 2;
      assert s[m + 1] == '-' && s[m] != '-';
      assert s[..n][..n - 1] == s[..n - 1];
    }
  }

  // ---------- the results ----------

  lemma HashIsLabel(branch: string, hash: string -> string)
    requires ShortHash(hash)
    ensures Label(hash(branch))
  {
    var h := hash(branch);
    forall i | 0 <= i < |h| ensures LabelChar(h[i]) && h[i] != '-' { assert Hex(h[i]); }
  }

  /** A dash and a label after a label make a label. */
  lemma Joined(a: string, b: string)
    requires Label(a) && Label(b)
    ensures Label(a + "-" + b)
  {
    var s := a + "-" + b;
    assert forall i :: |a| < i < |s| ==> s[i] == b[i - |a| - 1];
    forall i | 0 <= i < |s| - 1 ensures s[i] != '-' || s[i + 1] != '-' {
      if i < |a| - 1 { assert a[i] != '-' || a[i + 1] != '-'; }
      if i > |a| { assert b[i - |a| - 1] != '-' || b[i - |a| - 1 + 1] != '-'; }
    }
  }

  /** Main result: any branch whatever becomes a text, no longer than the limit or than the hash alone. */
  lemma NormalizeIsLabel(branch: string, maxLength: int, lower: char -> char, hash: string -> string)
    requires ShortHash(hash)
    ensures var text := Normalize(branch, maxLength, lower, hash);
            Label(text) && |text| <= if maxLength >= 6 then maxLength else 6
  {
    hide Label, Cleaned, TrimRight;
    HashIsLabel(branch, hash);
    CleanedIsLabel(branch, lower);
    var s, truncateTo := Cleaned(branch, lower), maxLength - 7;
    if |s| > maxLength && truncateTo > 0 {
      CutIsLabel(s, truncateTo);
      Joined(TrimRight(s[..truncateTo]), hash(branch));
      assert TrimRight(s[..truncateTo]) + "-" + hash(branch) == TrimRight(s[..truncateTo]) + ("-" + hash(branch));
    }
  }

  lemma CutIsLabel(s: string, n: nat)
    requires s != "" ==> Label(s)
    requires 0 < n < |s|
    ensures Label(TrimRight(s[..n])) && |TrimRight(s[..n])| <= n
  {
    TidySlice(s, 0, n);
    TrimmedRight(s[..n]);
  }

  /** Main result: normalizing a normalized branch under the same limit changes nothing, for every limit the hash fits. */
  lemma NormalizeIsIdempotent(branch: string, maxLength: int, lower: char -> char, hash: string -> string)
    requires ShortHash(hash) && LowerCasing(lower) && maxLength >= 6
    ensures var text := Normalize(branch, maxLength, lower, hash);
            Normalize(text, maxLength, lower, hash) == text
  {
    hide Label, Cleaned, TrimRight;
    NormalizeIsLabel(branch, maxLength, lower, hash);
    var text := Normalize(branch, maxLength, lower, hash);
    LabelIsCleaned(text, lower);
  }

  /** The branch did not fit and was cut. */
  predicate Cut(branch: string, maxLength: int, lower: char -> char) {
    |Cleaned(branch, lower)| > maxLength
  }

  /** Main result: two cut branches share a label only if they share their short hash. */
  lemma CutLabelsTellHashesApart(a: string, b: string, maxLength: int, lower: char -> char, hash: string -> string)
    requires ShortHash(hash) && maxLength >= 0
    requires Cut(a, maxLength, lower) && Cut(b, maxLength, lower)
    requires Normalize(a, maxLength, lower, hash) == Normalize(b, maxLength, lower, hash)
    ensures hash(a) == hash(b)
  {
    hide Cleaned, TrimRight;
    EndsInHash(a, maxLength, lower, hash);
    EndsInHash(b, maxLength, lower, hash);
  }

  lemma EndsInHash(branch: string, maxLength: int, lower: char -> char, hash: string -> string)
    requires ShortHash(hash) && maxLength >= 0 && Cut(branch, maxLength, lower)
    ensures var text := Normalize(branch, maxLength, lower, hash);
            |text| >= 6 && text[|text| - 6..] == hash(branch)
  {
    hide Cleaned, TrimRight;
  }
}
