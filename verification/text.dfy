/** Character and string helpers from the Go standard library that the scraper
    relies on (`strings.ToLower`, `strings.TrimSpace`, `strings.Contains`,
    `strings.Split`, `strings.ReplaceAll`), over an ASCII character model. */
module Text {

  predicate IsLower(c: char) { 'a' <= c <= 'z' }

  predicate IsUpper(c: char) { 'A' <= c <= 'Z' }

  /** `unicode.IsLetter`, restricted to ASCII letters. */
  predicate IsLetter(c: char) { IsLower(c) || IsUpper(c) }

  /** The ASCII white space that `strings.TrimSpace` removes. */
  predicate IsSpace(c: char) {
    c == ' ' || c == '\t' || c == '\n' || c == '\r' || c == '\U{0B}' || c == '\U{0C}'
  }

  /** `unicode.ToLower` on one character: an upper-case letter becomes the
      lower-case letter at the same place in the alphabet. */
  function LowerChar(c: char): (l: char)
    ensures IsLetter(c) <==> IsLetter(l)
    ensures !IsUpper(l)
    ensures !IsUpper(c) ==> l == c
    ensures IsUpper(c) ==> IsLower(l) && l as int - 'a' as int == c as int - 'A' as int
  {
    if IsUpper(c) then (c as int + 32) as char else c
  }

  /** `unicode.ToUpper` on one character: the inverse of `LowerChar` on
      lower-case letters. */
  function UpperChar(c: char): (u: char)
    ensures IsLetter(c) <==> IsLetter(u)
    ensures IsLetter(c) ==> IsUpper(u)
    ensures !IsLower(c) ==> u == c
    ensures IsLower(c) ==> LowerChar(u) == c
  {
    if IsLower(c) then (c as int - 32) as char else c
  }

  /** `strings.ToUpper`. */
  function ToUpper(s: string): (r: string)
    ensures |r| == |s|
    ensures forall i :: 0 <= i < |s| ==> r[i] == UpperChar(s[i])
  {
    seq(|s|, i requires 0 <= i < |s| => UpperChar(s[i]))
  }

  /** `strings.ToLower`. */
  function ToLower(s: string): (r: string)
    ensures |r| == |s|
    ensures forall i :: 0 <= i < |s| ==> r[i] == LowerChar(s[i])
  {
    seq(|s|, i requires 0 <= i < |s| => LowerChar(s[i]))
  }

  /** How many white-space characters `s` starts with. */
  function LeadingSpace(s: string): (n: nat)
    ensures n <= |s|
    ensures forall i :: 0 <= i < n ==> IsSpace(s[i])
    ensures n == |s| || !IsSpace(s[n])
  {
    if |s| > 0 && IsSpace(s[0]) then
      var n := 1 + LeadingSpace(s[1..]);
      assert forall i :: 1 <= i < n ==> s[i] == s[1..][i - 1];
      n
    else 0
  }

  /** How many white-space characters `s` ends with. */
  function TrailingSpace(s: string): (n: nat)
    ensures n <= |s|
    ensures forall i :: |s| - n <= i < |s| ==> IsSpace(s[i])
    ensures n == |s| || !IsSpace(s[|s| - n - 1])
  {
    if |s| > 0 && IsSpace(s[|s| - 1]) then
      var n := 1 + TrailingSpace(s[..|s| - 1]);
      assert forall i :: |s| - n <= i < |s| - 1 ==> s[i] == s[..|s| - 1][i];
      n
    else 0
  }

  /** `strings.TrimSpace`: the infix of `s` left once its leading and
      trailing white space is dropped; it has no white space at either end
      and everything outside it is white space. */
  function TrimSpace(s: string): (r: string)
    ensures var i := LeadingSpace(s);
            i + |r| <= |s| && r == s[i..i + |r|]
            && (forall j :: i + |r| <= j < |s| ==> IsSpace(s[j]))
    ensures r == [] || (!IsSpace(r[0]) && !IsSpace(r[|r| - 1]))
  {
    var i := LeadingSpace(s);
    var rest := s[i..];
    var t := TrailingSpace(rest);
    TrimSpaceShape(s, i, t);
    s[i..|s| - t]
  }

  /** Cutting `i` leading characters and then `t` trailing ones leaves an
      infix at `i` with white space after it. */
  lemma TrimSpaceShape(s: string, i: nat, t: nat)
    requires i <= |s| && t <= |s| - i
    requires forall j :: |s[i..]| - t <= j < |s[i..]| ==> IsSpace(s[i..][j])
    requires t == |s| - i || !IsSpace(s[i..][|s| - i - t - 1])
    requires i == |s| || !IsSpace(s[i])
    ensures var r := s[i..|s| - t];
            i + |r| <= |s| && r == s[i..i + |r|]
            && (forall j :: i + |r| <= j < |s| ==> IsSpace(s[j]))
            && (r == [] || (!IsSpace(r[0]) && !IsSpace(r[|r| - 1])))
  {
    var rest := s[i..];
    assert forall j :: i <= j < |s| ==> s[j] == rest[j - i];
  }

  /** A string that already has no white space at either end is its own trim. */
  lemma TrimSpaceOfTrimmed(s: string)
    requires s == [] || (!IsSpace(s[0]) && !IsSpace(s[|s| - 1]))
    ensures TrimSpace(s) == s
  {
    assert LeadingSpace(s) == 0;
    assert TrailingSpace(s) == 0;
  }

  /** `normalize` (main.go): lower-case, then trim. The result is the
      lower-cased input from its first non-space character on, cut where
      only white space is left. */
  function Normalize(s: string): (r: string)
    ensures forall i :: 0 <= i < |r| ==> !IsUpper(r[i])
    ensures r == [] || (!IsSpace(r[0]) && !IsSpace(r[|r| - 1]))
    ensures |r| <= |s|
    ensures var i := LeadingSpace(s);
            i + |r| <= |s| && r == ToLower(s)[i..i + |r|]
            && (forall k :: i + |r| <= k < |s| ==> IsSpace(s[k]))
  {
    TrimKeepsLower(ToLower(s));
    LowerKeepsSpace(s);
    TrimSpace(ToLower(s))
  }

  /** Lower-casing moves no white space: `s` and its lower-cased copy have
      white space at the same places, hence the same leading run. */
  lemma LowerKeepsSpace(s: string)
    ensures forall k :: 0 <= k < |s| ==> (IsSpace(ToLower(s)[k]) <==> IsSpace(s[k]))
    ensures LeadingSpace(ToLower(s)) == LeadingSpace(s)
  {
    var l := ToLower(s);
    assert forall k :: 0 <= k < |s| ==> (IsSpace(l[k]) <==> IsSpace(s[k]));
  }

  lemma TrimKeepsLower(s: string)
    requires forall i :: 0 <= i < |s| ==> !IsUpper(s[i])
    ensures forall i :: 0 <= i < |TrimSpace(s)| ==> !IsUpper(TrimSpace(s)[i])
  {
    var r := TrimSpace(s);
    var k := LeadingSpace(s);
    forall i | 0 <= i < |r| ensures !IsUpper(r[i]) {
      assert r[i] == s[k + i];
    }
  }

  /** Normalising twice is normalising once. */
  lemma NormalizeIdempotent(s: string)
    ensures Normalize(Normalize(s)) == Normalize(s)
  {
    var n := Normalize(s);
    assert forall i :: 0 <= i < |n| ==> LowerChar(n[i]) == n[i];
    assert ToLower(n) == n;
    TrimSpaceOfTrimmed(n);
  }

  /** `strings.Contains(s, pat)`. */
  predicate Contains(s: string, pat: string)
  {
    pat <= s || (|s| > 0 && Contains(s[1..], pat))
  }

  /** `strings.Split(s, string(sep))`: every occurrence of `sep` separates two
      tokens, so empty tokens are kept and the empty string gives one token. */
  function Split(s: string, sep: char): (parts: seq<string>)
    ensures |parts| == multiset(s)[sep] + 1
    ensures forall i :: 0 <= i < |parts| ==> sep !in parts[i]
  {
    if s == [] then [""]
    else
      var rest := Split(s[1..], sep);
      assert s == [s[0]] + s[1..];
      if s[0] == sep then [""] + rest
      else [[s[0]] + rest[0]] + rest[1..]
  }

  /** `strings.Join(parts, string(sep))`. */
  function Join(parts: seq<string>, sep: char): string
  {
    if |parts| == 0 then ""
    else if |parts| == 1 then parts[0]
    else parts[0] + [sep] + Join(parts[1..], sep)
  }

  /** Gluing text onto the first token glues it onto the joined string. */
  lemma JoinGlue(w: string, parts: seq<string>, sep: char)
    requires |parts| >= 1
    ensures Join([w + parts[0]] + parts[1..], sep) == w + Join(parts, sep)
  {
    var glued := [w + parts[0]] + parts[1..];
    assert glued[1..] == parts[1..];
    if |parts| > 1 {
      assert Join(glued, sep) == w + parts[0] + [sep] + Join(parts[1..], sep);
    }
  }

  /** An empty first token leaves just the separator in front. */
  lemma JoinEmptyFirst(parts: seq<string>, sep: char)
    requires |parts| >= 1
    ensures Join([""] + parts, sep) == [sep] + Join(parts, sep)
  {
    assert ([""] + parts)[1..] == parts;
  }

  /** Joining the tokens back with the separator restores the input. */
  lemma {:induction false} JoinSplit(s: string, sep: char)
    ensures Join(Split(s, sep), sep) == s
  {
    if s != [] {
      JoinSplit(s[1..], sep);
      var rest := Split(s[1..], sep);
      if s[0] == sep {
        JoinEmptyFirst(rest, sep);
      } else {
        JoinGlue([s[0]], rest, sep);
      }
      assert s == [s[0]] + s[1..];
    }
  }

  /** A string without the separator is a single token. */
  lemma {:induction false} SplitWord(w: string, sep: char)
    requires sep !in w
    ensures Split(w, sep) == [w]
  {
    if w != [] {
      SplitWord(w[1..], sep);
      assert w == [w[0]] + w[1..];
    }
  }

  /** A separator-free prefix followed by the separator is the first token. */
  lemma {:induction false} SplitCons(w: string, rest: string, sep: char)
    requires sep !in w
    ensures Split(w + [sep] + rest, sep) == [w] + Split(rest, sep)
  {
    var s := w + [sep] + rest;
    if w == [] {
      assert s[1..] == rest;
    } else {
      assert s[1..] == w[1..] + [sep] + rest;
      SplitCons(w[1..], rest, sep);
      assert w == [w[0]] + w[1..];
    }
  }

  /** Splitting separator-free tokens joined by the separator gives them back. */
  lemma {:induction false} SplitJoin(parts: seq<string>, sep: char)
    requires |parts| >= 1
    requires forall i :: 0 <= i < |parts| ==> sep !in parts[i]
    ensures Split(Join(parts, sep), sep) == parts
  {
    if |parts| == 1 {
      SplitWord(parts[0], sep);
    } else {
      SplitJoin(parts[1..], sep);
      SplitCons(parts[0], Join(parts[1..], sep), sep);
      assert parts == [parts[0]] + parts[1..];
    }
  }

  /** The first part starts the joined string and the last part ends it;
      every other character is a separator or a character of some part. */
  lemma {:induction false} JoinShape(parts: seq<string>, sep: char)
    requires |parts| >= 1
    ensures var j := Join(parts, sep);
            && parts[0] <= j
            && |parts[|parts| - 1]| <= |j| && j[|j| - |parts[|parts| - 1]|..] == parts[|parts| - 1]
            && forall k :: 0 <= k < |j| ==> j[k] == sep || exists i :: 0 <= i < |parts| && j[k] in parts[i]
  {
    if |parts| > 1 {
      JoinShape(parts[1..], sep);
      var rest := Join(parts[1..], sep);
      var j := Join(parts, sep);
      assert j == parts[0] + [sep] + rest;
      forall k | 0 <= k < |j|
        ensures j[k] == sep || exists i :: 0 <= i < |parts| && j[k] in parts[i]
      {
        if k < |parts[0]| {
          assert j[k] in parts[0];
        } else if k > |parts[0]| {
          assert j[k] == rest[k - |parts[0]| - 1];
          if rest[k - |parts[0]| - 1] != sep {
            var i :| 0 <= i < |parts[1..]| && rest[k - |parts[0]| - 1] in parts[1..][i];
            assert j[k] in parts[i + 1];
          }
        }
      }
    }
  }

  /** A lower-case string with no white space at either end is already
      normalised. */
  lemma NormalizeOfNormal(s: string)
    requires forall i :: 0 <= i < |s| ==> !IsUpper(s[i])
    requires s == [] || (!IsSpace(s[0]) && !IsSpace(s[|s| - 1]))
    ensures Normalize(s) == s
  {
    assert ToLower(s) == s;
    TrimSpaceOfTrimmed(s);
  }

  /** `strings.ReplaceAll(s, string(c), "")`: every `c` removed, every other
      character kept, in order. */
  function Strip(s: string, c: char): (r: string)
    ensures c !in r
    ensures forall x :: x != c ==> multiset(r)[x] == multiset(s)[x]
    ensures |r| <= |s|
  {
    if s == [] then []
    else
      assert s == [s[0]] + s[1..];
      if s[0] == c then Strip(s[1..], c) else [s[0]] + Strip(s[1..], c)
  }

  /** `strings.ReplaceAll(s, pat, "")`: leftmost, non-overlapping occurrences
      of a non-empty `pat` are deleted. */
  function RemoveAll(s: string, pat: string): (r: string)
    requires |pat| > 0
    ensures |r| <= |s|
    ensures !Contains(s, pat) ==> r == s
    decreases |s|
  {
    if |s| == 0 then s
    else if pat <= s then RemoveAll(s[|pat|..], pat)
    else [s[0]] + RemoveAll(s[1..], pat)
  }

  /** `stringSliceContains` (main.go): with `checkAll`, whether every one of
      `values` is in `slice`; without it, whether any of them is. */
  function StringSliceContains(slice: seq<string>, checkAll: bool, values: seq<string>): (r: bool)
    ensures checkAll ==> (r <==> forall i :: 0 <= i < |values| ==> values[i] in slice)
    ensures !checkAll ==> (r <==> exists i :: 0 <= i < |values| && values[i] in slice)
  {
    if values == [] then checkAll
    else
      var found := values[0] in slice;
      if checkAll && !found then false
      else if !checkAll && found then true
      else
        var r := StringSliceContains(slice, checkAll, values[1..]);
        assert forall i :: 1 <= i < |values| ==> values[i] == values[1..][i - 1];
        r
  }
}
