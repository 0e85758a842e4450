/**
 File names for downloads: probing for a name that is free, and making a received name safe
 to use as one path component.
 */
module FileHelper {

  // ---- splitting a file name at its first dot ----------------------------------------------

  function FirstDot(name: string): (i: nat)
    ensures i <= |name| && '.' !in name[..i] && (i < |name| ==> name[i] == '.')
  {
    if name == "" || name[0] == '.' then 0
    else
      var i := FirstDot(name[1..]) + 1;
      assert name[..i] == [name[0]] + name[1..][..i - 1];
      i
  }

  function BaseName(name: string): string {
    name[..FirstDot(name)]
  }

  function CompleteSuffix(name: string): string {
    if FirstDot(name) < |name| then name[FirstDot(name) + 1..] else ""
  }

  function DottedSuffix(name: string): string {
    if '.' in name then "." + CompleteSuffix(name) else CompleteSuffix(name)
  }

  lemma NoDot(name: string)
    ensures FirstDot(name) == |name| <==> '.' !in name
  {
    if FirstDot(name) == |name| { assert name[..|name|] == name; }
  }

  lemma Rejoin(name: string)
    ensures BaseName(name) + DottedSuffix(name) == name
  {
    NoDot(name);
    SplitAt(name, FirstDot(name));
    hide FirstDot;
  }

  lemma SplitAt(name: string, i: nat)
    requires i <= |name|
    ensures name[..i] + name[i..] == name
    ensures i < |name| ==> name[i..] == [name[i]] + name[i + 1..]
  {
  }

  // ---- decimal numbers ------------------------------------------------------------------------

  const DIGITS: string := "0123456789"

  function Number(n: nat): (s: string)
    ensures s != "" && AllDigits(s)
  {
    if n < 10 then [DIGITS[n]] else Number(n / 10) + [DIGITS[n % 10]]
  }

  predicate AllDigits(s: string) {
    forall i :: 0 <= i < |s| ==> '0' <= s[i] <= '9'
  }

  function ToNat(s: string): nat
    requires AllDigits(s)
  {
    if s == "" then 0 else 10 * ToNat(s[..|s| - 1]) + (s[|s| - 1] as int - '0' as int)
  }

  lemma {:induction false} NumberRoundTrip(n: nat)
    ensures ToNat(Number(n)) == n
  {
    assert DIGITS[n % 10] as int - '0' as int == n % 10;
    if n >= 10 {
      NumberRoundTrip(n / 10);
      assert Number(n)[..|Number(n)| - 1] == Number(n / 10);
    }
  }

  /** No zeros are put in front. */
  lemma {:induction false} NumberLeads(n: nat)
    ensures Number(0) == "0" && (n > 0 ==> Number(n)[0] != '0')
  {
    if n >= 10 { NumberLeads(n / 10); }
  }

  // ---- candidates -------------------------------------------------------------------------------

  function Tag(i: nat): string {
    " (" + Number(i) + ")"
  }

  /** The i-th name that is tried; the given name comes first. */
  function Candidate(name: string, i: nat): string {
    if i == 0 then name
    else if BaseName(name) != "" then BaseName(name) + Tag(i) + DottedSuffix(name)
    else DottedSuffix(name) + Tag(i)
  }

  lemma TagInjective(i: nat, j: nat)
    requires Tag(i) == Tag(j)
    ensures i == j
  {
    assert Number(i) == Tag(i)[2..|Tag(i)| - 1];
    assert Number(j) == Tag(j)[2..|Tag(j)| - 1];
    NumberRoundTrip(i);
    NumberRoundTrip(j);
  }

  lemma CandidatesDistinct(name: string, i: nat, j: nat)
    requires i != j
    ensures Candidate(name, i) != Candidate(name, j)
  {
    Rejoin(name);
    var b, s := BaseName(name), DottedSuffix(name);
    if i != 0 && j != 0 && Candidate(name, i) == Candidate(name, j) {
      if b != "" {
        var c := Candidate(name, i);
        assert |Tag(i)| == |Tag(j)|;
        assert Tag(i) == c[|b|..|b| + |Tag(i)|] == Tag(j);
      } else {
        assert Tag(i) == Candidate(name, i)[|s|..] == Tag(j);
      }
      TagInjective(i, j);
    }
  }

  /** The names that are tried first. */
  function Candidates(name: string, n: nat): set<string> {
    if n == 0 then {} else Candidates(name, n - 1) + {Candidate(name, n - 1)}
  }

  lemma {:induction false} CandidatesAre(name: string, n: nat, c: string)
    ensures c in Candidates(name, n) <==> exists k :: 0 <= k < n && Candidate(name, k) == c
  {
    hide Candidate;
    if n > 0 { CandidatesAre(name, n - 1, c); }
  }

  lemma {:induction false} CandidatesCount(name: string, n: nat)
    ensures |Candidates(name, n)| == n
  {
    hide Candidate;
    if n > 0 {
      CandidatesCount(name, n - 1);
      var last := Candidate(name, n - 1);
      CandidatesAre(name, n - 1, last);
      if last in Candidates(name, n - 1) {
        var k :| 0 <= k < n - 1 && Candidate(name, k) == last;
        CandidatesDistinct(name, k, n - 1);
      }
    }
  }

  lemma SubsetSize(a: set<string>, b: set<string>)
    requires a <= b
    ensures |a| <= |b|
  {
    assert b == a + (b - a);
  }

  /** Pigeonhole: no more candidates can be taken than there are names. */
  lemma TakenCandidates(name: string, existing: set<string>, n: nat)
    requires forall k :: 0 <= k < n ==> Candidate(name, k) in existing
    ensures n <= |existing|
  {
    CandidatesCount(name, n);
    forall c | c in Candidates(name, n) ensures c in existing {
      CandidatesAre(name, n, c);
    }
    SubsetSize(Candidates(name, n), existing);
  }

  /** i is the least index whose candidate is free. */
  ghost predicate FirstFree(name: string, existing: set<string>, i: nat) {
    && Candidate(name, i) !in existing
    && forall k :: 0 <= k < i ==> Candidate(name, k) in existing
  }

  lemma FirstFreeBound(name: string, existing: set<string>, i: nat)
    requires FirstFree(name, existing, i)
    ensures i <= |existing|
  {
    TakenCandidates(name, existing, i);
  }

  /** Some candidate is free, so probing stops; and there is only one least index. */
  lemma FirstFreeExistsOnce(name: string, existing: set<string>)
    ensures exists i :: FirstFree(name, existing, i)
    ensures forall i, j :: FirstFree(name, existing, i) && FirstFree(name, existing, j) ==> i == j
  {
    hide Candidate;
    var i := 0;
    while Candidate(name, i) in existing
      invariant forall k :: 0 <= k < i ==> Candidate(name, k) in existing
      decreases |existing| - i
    {
      TakenCandidates(name, existing, i + 1);
      i := i + 1;
    }
    assert FirstFree(name, existing, i);
  }

  /** nonexistingFile, within one directory whose entries are the existing names. */
  method NonexistingFile(name: string, existing: set<string>) returns (result: string, ghost index: nat)
    ensures result !in existing
    ensures result == Candidate(name, index) && FirstFree(name, existing, index)
    ensures index <= |existing|
  {
    hide Number, FirstDot, BaseName, CompleteSuffix;
    result := name;
    index := 0;
    var prefix := BaseName(name);
    var suffix := CompleteSuffix(name);
    if '.' in name {
      suffix := "." + suffix;
    }
    if prefix != "" {
      var i := 0;
      while result in existing
        invariant result == Candidate(name, i)
        invariant forall k :: 0 <= k < i ==> Candidate(name, k) in existing
        decreases |existing| - i
      {
        TakenCandidates(name, existing, i + 1);
        i := i + 1;
        result := prefix + (" (" + Number(i) + ")") + suffix;
      }
      index := i;
    } else {
      var i := 0;
      while result in existing
        invariant result == Candidate(name, i)
        invariant forall k :: 0 <= k < i ==> Candidate(name, k) in existing
        decreases |existing| - i
      {
        TakenCandidates(name, existing, i + 1);
        i := i + 1;
        result := suffix + (" (" + Number(i) + ")");
      }
      index := i;
    }
    FirstFreeBound(name, existing, index);
  }

  /** How the candidates are spelled: a name that is a part without dots and a rest that is empty or
      starts with a dot is tried as it is, then with the counter in parentheses between the two; if
      the first part is empty, the counter goes behind the rest, as in ".x (1)". */
  lemma CandidateSpells(b: string, s: string, i: nat)
    requires '.' !in b && (s == "" || s[0] == '.')
    ensures Candidate(b + s, i) ==
      if i == 0 then b + s
      else if b == "" then s + " (" + Number(i) + ")"
      else b + " (" + Number(i) + ")" + s
  {
    hide BaseName, DottedSuffix, Number;
    SplitName(b, s);
    assert s + Tag(i) == s + " (" + Number(i) + ")";
    assert b + Tag(i) + s == b + " (" + Number(i) + ")" + s;
  }

  lemma SplitName(b: string, s: string)
    requires '.' !in b && (s == "" || s[0] == '.')
    ensures BaseName(b + s) == b && DottedSuffix(b + s) == s
  {
    hide FirstDot, CompleteSuffix, DottedSuffix;
    FirstDotOf(b, s);
    Rejoin(b + s);
    assert (b + s)[..|b|] == b;
    assert (b + s)[|b|..] == s;
    assert (b + DottedSuffix(b + s))[|b|..] == DottedSuffix(b + s);
  }

  /** A name that does not start with a dot keeps everything from its first dot on, and the
      counter goes right before it. */
  lemma CandidateKeepsSuffix(name: string, i: nat)
    requires i > 0 && BaseName(name) != ""
    ensures BaseName(Candidate(name, i)) == BaseName(name) + Tag(i)
    ensures DottedSuffix(Candidate(name, i)) == DottedSuffix(name)
  {
    var b, s := BaseName(name) + Tag(i), DottedSuffix(name);
    assert '.' !in b;
    FirstDotOf(b, s);
    assert Candidate(name, i) == b + s;
    Rejoin(name);
    Rejoin(b + s);
    assert (b + s)[..|b|] == b;
    assert BaseName(b + s) == b;
    assert DottedSuffix(b + s) == (b + s)[|b|..];
  }

  lemma {:induction false} FirstDotOf(b: string, s: string)
    requires '.' !in b && (s == "" || s[0] == '.')
    ensures FirstDot(b + s) == |b|
  {
    if b != "" {
      assert (b + s)[1..] == b[1..] + s;
      FirstDotOf(b[1..], s);
    } else {
      assert b + s == s;
    }
  }

  // ---- safe names ---------------------------------------------------------------------------------

  predicate IsSpace(c: char) {
    var n := c as int;
    || 9 <= n <= 13 || n == 0x20 || n == 0x85 || n == 0xA0 || n == 0x1680
    || 0x2000 <= n <= 0x200A || n == 0x2028 || n == 0x2029 || n == 0x202F || n == 0x205F || n == 0x3000
  }

  function TrimLeft(s: string): string {
    if s != "" && IsSpace(s[0]) then TrimLeft(s[1..]) else s
  }

  function TrimRight(s: string): string {
    if s != "" && IsSpace(s[|s| - 1]) then TrimRight(s[..|s| - 1]) else s
  }

  function Trimmed(s: string): string {
    TrimRight(TrimLeft(s))
  }

  /** s without the character c. */
  function Without(s: string, c: char): (r: string)
    ensures c !in r && forall d :: d in r ==> d in s
    ensures c !in s ==> r == s
  {
    if s == "" then ""
    else if s[0] == c then Without(s[1..], c)
    else
      assert s == [s[0]] + s[1..];
      [s[0]] + Without(s[1..], c)
  }

  const NUL: char := 0 as char

  /** One path component that names neither the directory itself nor its parent. */
  predicate Safe(name: string) {
    name != "" && '/' !in name && NUL !in name && name != "." && name != ".."
  }

  /** s without slashes and NULs. */
  function Stripped(s: string): string {
    Without(Without(s, '/'), NUL)
  }

  function Escaped(name: string): string {
    var stripped := Stripped(Trimmed(name));
    if Safe(stripped) then stripped else "_"
  }

  /** The result is always safe, and only names that are safe and trimmed are left as they are. */
  lemma EscapedIsSafe(name: string)
    ensures Safe(Escaped(name))
    ensures Escaped(name) == name <==> Safe(name) && Trimmed(name) == name
  {
    TrimShortens(name);
    WithoutShortens(Trimmed(name), '/');
    WithoutShortens(Without(Trimmed(name), '/'), NUL);
    if Escaped(name) == name && name == "_" {
      assert TrimLeft(name) == name;
    }
  }

  /** t is s without the white space around it. */
  ghost predicate Trims(s: string, t: string, from: nat, to: nat) {
    && from <= to <= |s| && t == s[from..to]
    && (forall k :: 0 <= k < from ==> IsSpace(s[k])) && (forall k :: to <= k < |s| ==> IsSpace(s[k]))
    && (t != "" ==> !IsSpace(t[0]) && !IsSpace(t[|t| - 1]))
  }

  lemma {:induction false} TrimLeftIs(s: string) returns (from: nat)
    ensures from <= |s| && TrimLeft(s) == s[from..] && (forall k :: 0 <= k < from ==> IsSpace(s[k]))
    ensures TrimLeft(s) != "" ==> !IsSpace(TrimLeft(s)[0])
  {
    from := 0;
    if s != "" && IsSpace(s[0]) {
      from := TrimLeftIs(s[1..]);
      from := from + 1;
      assert s[1..][from - 1..] == s[from..];
      forall k | 0 <= k < from ensures IsSpace(s[k]) {
        if k > 0 { assert s[k] == s[1..][k - 1]; }
      }
    }
  }

  lemma {:induction false} TrimRightIs(s: string) returns (to: nat)
    ensures to <= |s| && TrimRight(s) == s[..to] && (forall k :: to <= k < |s| ==> IsSpace(s[k]))
    ensures TrimRight(s) != "" ==> !IsSpace(TrimRight(s)[|TrimRight(s)| - 1])
  {
    to := |s|;
    if s != "" && IsSpace(s[|s| - 1]) {
      to := TrimRightIs(s[..|s| - 1]);
      assert s[..|s| - 1][..to] == s[..to];
      forall k | to <= k < |s| ensures IsSpace(s[k]) {
        if k < |s| - 1 { assert s[k] == s[..|s| - 1][k]; }
      }
    }
  }

  lemma TrimmedIs(s: string)
    ensures exists from, to :: Trims(s, Trimmed(s), from, to)
  {
    var from := TrimLeftIs(s);
    var to := TrimRightIs(s[from..]);
    assert s[from..][..to] == s[from..from + to];
    assert Trims(s, Trimmed(s), from, from + to);
  }

  /** r is s with each slash and each NUL left out, and everything else kept in its order. */
  predicate KeepsOthers(s: string, r: string) {
    if s == "" then r == ""
    else if s[0] == '/' || s[0] == NUL then KeepsOthers(s[1..], r)
    else r != "" && r[0] == s[0] && KeepsOthers(s[1..], r[1..])
  }

  lemma StrippedStep(s: string)
    requires s != ""
    ensures Stripped(s) == (if s[0] == '/' || s[0] == NUL then "" else [s[0]]) + Stripped(s[1..])
  {
  }

  lemma {:induction false} StrippedKeeps(s: string)
    ensures KeepsOthers(s, Stripped(s))
  {
    if s != "" {
      hide Stripped;
      StrippedKeeps(s[1..]);
      StrippedStep(s);
    }
  }

  /** The escaped name is what is left of the name without the white space around it when slashes and
      NULs are taken out, the rest in its order; or "_" if that is empty or names a directory. */
  lemma EscapedKeeps(name: string)
    ensures exists from, to, trimmed, r ::
      && Trims(name, trimmed, from, to) && KeepsOthers(trimmed, r)
      && Escaped(name) == if r in ["", ".", ".."] then "_" else r
  {
    TrimmedIs(name);
    var from, to :| Trims(name, Trimmed(name), from, to);
    var r := Stripped(Trimmed(name));
    StrippedKeeps(Trimmed(name));
    StrippedHasNone(Trimmed(name));
    assert Escaped(name) == if r in ["", ".", ".."] then "_" else r;
    hide Without, Trims, KeepsOthers;
  }

  lemma StrippedHasNone(s: string)
    ensures '/' !in Stripped(s) && NUL !in Stripped(s)
  {
    hide Without;
    var t := Without(s, '/');
    assert forall d :: d in Without(t, NUL) ==> d in t;
  }

  lemma TrimShortens(s: string)
    ensures |Trimmed(s)| <= |s| && (|Trimmed(s)| == |s| ==> Trimmed(s) == s)
  {
    TrimLeftShortens(s);
    TrimRightShortens(TrimLeft(s));
  }

  lemma TrimLeftShortens(s: string)
    ensures |TrimLeft(s)| <= |s| && (|TrimLeft(s)| == |s| ==> TrimLeft(s) == s)
  {
  }

  lemma TrimRightShortens(s: string)
    ensures |TrimRight(s)| <= |s| && (|TrimRight(s)| == |s| ==> TrimRight(s) == s)
  {
  }

  lemma WithoutShortens(s: string, c: char)
    ensures |Without(s, c)| <= |s| && (|Without(s, c)| == |s| ==> Without(s, c) == s)
  {
  }

  method EscapeForFilePath(name: string) returns (result: string)
    ensures Safe(result)
    ensures result == name <==> Safe(name) && Trimmed(name) == name
    ensures result == Escaped(name)
  {
    EscapedIsSafe(name);
    result := Trimmed(name);
    result := Without(result, '/');
    result := Without(result, NUL);
    if result == "" || result == "." || result == ".." {
      result := "_";
    }
  }

  lemma TagIsSafe(i: nat)
    ensures '/' !in Tag(i) && NUL !in Tag(i) && |Tag(i)| > 2
  {
    var n := Number(i);
    hide Number;
    assert forall k :: 0 <= k < |Tag(i)| ==> Tag(i)[k] == if k == 0 then ' ' else if k == 1 then '(' else if k < |n| + 2 then n[k - 2] else ')';
  }

  /** Every candidate for a safe name is safe: it stays in the directory of that name. */
  lemma CandidateIsSafe(name: string, i: nat)
    requires Safe(name)
    ensures Safe(Candidate(name, i))
  {
    Rejoin(name);
    TagIsSafe(i);
    hide Tag, BaseName, DottedSuffix;
    forall c | c == '/' || c == NUL ensures c !in Candidate(name, i) {
      assert c !in BaseName(name) + DottedSuffix(name);
      assert c !in Tag(i);
    }
  }
}
