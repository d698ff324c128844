/** The label and prose case converters of main.go: `ToTitleCase`,
    `toSentenceCase` and `htmlRawToFieldName`. Both converters are the same
    single-pass scanner with a `capitalizeNext` flag; they differ only in which
    characters re-arm the flag. */
module Casing {
  import opened Text

  /** Which converter: `ToTitleCase` re-arms after a space, hyphen or
      apostrophe, `toSentenceCase` after `.`, `!` or `?`. */
  datatype Mode = Title | Sentence

  predicate IsTrigger(m: Mode, c: char)
    ensures IsTrigger(m, c) ==> !IsLetter(c)
  {
    match m
    case Title => c == ' ' || c == '-' || c == '\''
    case Sentence => c == '.' || c == '!' || c == '?'
  }

  /** The `capitalizeNext` flag after reading `c` with the flag `pending`. */
  function NextFlag(m: Mode, pending: bool, c: char): bool
  {
    if pending && IsLetter(c) then false
    else if IsTrigger(m, c) then true
    else pending
  }

  /** The scanner loop, started with `capitalizeNext == pending`: keeps every
      character, upper-casing a letter met while the flag is armed. */
  function Capitalize(m: Mode, s: string, pending: bool): (r: string)
    ensures |r| == |s|
  {
    if s == [] then []
    else
      var c := s[0];
      [if pending && IsLetter(c) then UpperChar(c) else c] + Capitalize(m, s[1..], NextFlag(m, pending, c))
  }

  /** The scanner keeps the length and touches only lower-case letters, which
      it upper-cases. */
  lemma {:induction false} CapitalizeShape(m: Mode, s: string, pending: bool)
    ensures forall i :: 0 <= i < |s| ==>
              Capitalize(m, s, pending)[i] == s[i]
              || (IsLower(s[i]) && Capitalize(m, s, pending)[i] == UpperChar(s[i]))
  {
    if s != [] {
      CapitalizeShape(m, s[1..], NextFlag(m, pending, s[0]));
      assert forall i :: 1 <= i < |s| ==> s[i] == s[1..][i - 1];
    }
  }

  /** `ToTitleCase` (main.go). */
  function ToTitleCase(s: string): (r: string)
    ensures |r| == |s|
    ensures forall i :: 0 <= i < |s| ==> r[i] == s[i] || (IsLower(s[i]) && r[i] == UpperChar(s[i]))
  {
    CapitalizeShape(Title, s, true);
    Capitalize(Title, s, true)
  }

  /** `toSentenceCase` (main.go). */
  function ToSentenceCase(s: string): (r: string)
    ensures |r| == |s|
    ensures forall i :: 0 <= i < |s| ==> r[i] == s[i] || (IsLower(s[i]) && r[i] == UpperChar(s[i]))
  {
    CapitalizeShape(Sentence, s, true);
    Capitalize(Sentence, s, true)
  }

  /** The flag in force when the scanner reaches index `i`, read backwards:
      armed at the start (if `pending`) or right after a trigger, disarmed
      by any letter, kept by every other character. */
  ghost function PendingAt(m: Mode, s: string, pending: bool, i: nat): bool
    requires i <= |s|
  {
    if i == 0 then pending else NextFlag(m, PendingAt(m, s, pending, i - 1), s[i - 1])
  }

  lemma {:induction false} PendingAtShift(m: Mode, s: string, pending: bool, i: nat)
    requires 0 < |s| && i < |s|
    ensures PendingAt(m, s, pending, i + 1) == PendingAt(m, s[1..], NextFlag(m, pending, s[0]), i)
  {
    if i > 0 {
      PendingAtShift(m, s, pending, i - 1);
      assert s[i] == s[1..][i - 1];
    }
  }

  /** Pointwise meaning of the scanner: position `i` is upper-cased exactly
      when it holds a letter and the flag is armed there. */
  lemma {:induction false} CapitalizeAt(m: Mode, s: string, pending: bool, i: nat)
    requires i < |s|
    ensures Capitalize(m, s, pending)[i]
         == if IsLetter(s[i]) && PendingAt(m, s, pending, i) then UpperChar(s[i]) else s[i]
  {
    if i > 0 {
      CapitalizeAt(m, s[1..], NextFlag(m, pending, s[0]), i - 1);
      PendingAtShift(m, s, pending, i - 1);
    }
  }

  /** With no letter since index `k`, the flag at `i` is the flag at `k`. */
  lemma {:induction false} PendingKept(m: Mode, s: string, pending: bool, k: nat, i: nat)
    requires k <= i <= |s|
    requires PendingAt(m, s, pending, k)
    requires forall j :: k <= j < i ==> !IsLetter(s[j])
    ensures PendingAt(m, s, pending, i)
  {
    if i > k {
      PendingKept(m, s, pending, k, i - 1);
    }
  }

  /** The first letter of the input is capitalised. */
  lemma FirstLetterCapitalized(m: Mode, s: string, k: nat)
    requires k < |s| && IsLetter(s[k])
    requires forall j :: 0 <= j < k ==> !IsLetter(s[j])
    ensures Capitalize(m, s, true)[k] == UpperChar(s[k])
    ensures IsUpper(Capitalize(m, s, true)[k])
  {
    PendingKept(m, s, true, 0, k);
    CapitalizeAt(m, s, true, k);
  }

  /** The first letter after a trigger is capitalised. */
  lemma LetterAfterTriggerCapitalized(m: Mode, s: string, pending: bool, t: nat, k: nat)
    requires t < k < |s| && IsTrigger(m, s[t]) && IsLetter(s[k])
    requires forall j :: t < j < k ==> !IsLetter(s[j])
    ensures Capitalize(m, s, pending)[k] == UpperChar(s[k])
  {
    assert PendingAt(m, s, pending, t + 1);
    PendingKept(m, s, pending, t + 1, k);
    CapitalizeAt(m, s, pending, k);
  }

  /** A letter that follows another letter with no trigger between them is
      left as it is. */
  lemma LetterAfterLetterKept(m: Mode, s: string, pending: bool, p: nat, k: nat)
    requires p < k < |s| && IsLetter(s[p]) && IsLetter(s[k])
    requires forall j :: p < j < k ==> !IsTrigger(m, s[j])
    ensures Capitalize(m, s, pending)[k] == s[k]
  {
    assert !PendingAt(m, s, pending, p + 1);
    var i := p + 1;
    while i < k
      invariant p + 1 <= i <= k
      invariant !PendingAt(m, s, pending, i)
    {
      i := i + 1;
    }
    CapitalizeAt(m, s, pending, k);
  }

  /** Running the scanner a second time changes nothing. */
  lemma {:induction false} CapitalizeIdempotent(m: Mode, s: string, pending: bool)
    ensures Capitalize(m, Capitalize(m, s, pending), pending) == Capitalize(m, s, pending)
  {
    if s != [] {
      var r := Capitalize(m, s, pending);
      var c := s[0];
      CapitalizeIdempotent(m, s[1..], NextFlag(m, pending, c));
      assert r[1..] == Capitalize(m, s[1..], NextFlag(m, pending, c));
      assert NextFlag(m, pending, r[0]) == NextFlag(m, pending, c);
    }
  }

  lemma TitleCaseIdempotent(s: string)
    ensures ToTitleCase(ToTitleCase(s)) == ToTitleCase(s)
  {
    CapitalizeIdempotent(Title, s, true);
  }

  lemma SentenceCaseIdempotent(s: string)
    ensures ToSentenceCase(ToSentenceCase(s)) == ToSentenceCase(s)
  {
    CapitalizeIdempotent(Sentence, s, true);
  }

  /** The alias table of `htmlRawToFieldName`. */
  function Alias(squashed: string): string
  {
    if squashed == "DrugbankAccessionNumber" then "ID"
    else if squashed == "GenericName" then "Molecule"
    else if squashed == "CasNumber" then "CAS"
    else squashed
  }

  /** `htmlRawToFieldName` before the alias table: title case with every
      space and hyphen removed. */
  function Squash(raw: string): string
  {
    Strip(Strip(ToTitleCase(raw), ' '), '-')
  }

  /** `htmlRawToFieldName` (main.go): maps a label to a `DrugInfo` field name. */
  function FieldName(raw: string): (r: string)
    ensures ' ' !in r && '-' !in r
    ensures r != Squash(raw) ==> r == "ID" || r == "Molecule" || r == "CAS"
  {
    var t := Strip(ToTitleCase(raw), ' ');
    var squashed := Strip(t, '-');
    StripKeepsAbsent(t, '-', ' ');
    Alias(squashed)
  }

  lemma StripKeepsAbsent(s: string, c: char, x: char)
    requires x !in s
    ensures x !in Strip(s, c)
  {
    if x != c {
      assert multiset(s)[x] == 0;
    }
  }

  /** A word of a normalised label: lower-case letters only. */
  ghost predicate IsWord(w: string)
  {
    |w| > 0 && forall i :: 0 <= i < |w| ==> IsLower(w[i])
  }

  /** A word with its first letter upper-cased. */
  function CapWord(w: string): string
  {
    if w == [] then [] else [UpperChar(w[0])] + w[1..]
  }

  /** The words, each capitalised, run together. */
  function Camel(ws: seq<string>): string
  {
    if ws == [] then "" else CapWord(ws[0]) + Camel(ws[1..])
  }

  lemma {:induction false} CapitalizeAppend(m: Mode, a: string, b: string, pending: bool)
    ensures Capitalize(m, a + b, pending)
         == Capitalize(m, a, pending) + Capitalize(m, b, PendingAt(m, a, pending, |a|))
  {
    if a == [] {
      assert a + b == b;
    } else {
      var c := a[0];
      var head := if pending && IsLetter(c) then UpperChar(c) else c;
      var next := NextFlag(m, pending, c);
      assert (a + b)[0] == c && (a + b)[1..] == a[1..] + b;
      assert Capitalize(m, a + b, pending) == [head] + Capitalize(m, a[1..] + b, next);
      assert Capitalize(m, a, pending) == [head] + Capitalize(m, a[1..], next);
      CapitalizeAppend(m, a[1..], b, next);
      PendingAtShift(m, a, pending, |a| - 1);
    }
  }

  lemma {:induction false} CapitalizeWord(m: Mode, w: string, pending: bool)
    requires IsWord(w)
    ensures Capitalize(m, w, pending) == if pending then CapWord(w) else w
    ensures !PendingAt(m, w, pending, |w|)
  {
    if |w| > 1 {
      CapitalizeWord(m, w[1..], false);
      PendingAtShift(m, w, pending, |w| - 1);
    }
  }

  lemma {:induction false} StripAppend(a: string, b: string, c: char)
    ensures Strip(a + b, c) == Strip(a, c) + Strip(b, c)
  {
    if a == [] {
      assert a + b == b;
    } else {
      assert (a + b)[0] == a[0] && (a + b)[1..] == a[1..] + b;
      StripAppend(a[1..], b, c);
    }
  }

  lemma {:induction false} StripAbsent(s: string, c: char)
    requires c !in s
    ensures Strip(s, c) == s
  {
    if s != [] {
      StripAbsent(s[1..], c);
    }
  }

  lemma {:induction false} TitleWords(ws: seq<string>)
    requires |ws| > 0 && forall i :: 0 <= i < |ws| ==> IsWord(ws[i])
    ensures Strip(ToTitleCase(Join(ws, ' ')), ' ') == Camel(ws)
  {
    var w := ws[0];
    CapitalizeWord(Title, w, true);
    StripAbsent(CapWord(w), ' ');
    if |ws| == 1 {
      assert Camel(ws) == CapWord(w) + Camel(ws[1..]);
    } else {
      var rest := Join(ws[1..], ' ');
      assert Join(ws, ' ') == w + ([' '] + rest);
      CapitalizeAppend(Title, w, [' '] + rest, true);
      assert Capitalize(Title, [' '] + rest, false) == [' '] + Capitalize(Title, rest, true);
      StripAppend(CapWord(w), [' '] + ToTitleCase(rest), ' ');
      TitleWords(ws[1..]);
    }
  }

  lemma {:induction false} CamelLetters(ws: seq<string>)
    requires forall i :: 0 <= i < |ws| ==> IsWord(ws[i])
    ensures forall i :: 0 <= i < |Camel(ws)| ==> IsLetter(Camel(ws)[i])
  {
    if ws != [] {
      CamelLetters(ws[1..]);
    }
  }

  /** A normalised label of lower-case words separated by single spaces
      squashes to the words capitalised and run together. */
  lemma SquashWords(ws: seq<string>)
    requires |ws| > 0 && forall i :: 0 <= i < |ws| ==> IsWord(ws[i])
    ensures Squash(Join(ws, ' ')) == Camel(ws)
  {
    TitleWords(ws);
    var camel := Camel(ws);
    CamelLetters(ws);
    assert forall i :: 0 <= i < |camel| ==> camel[i] != '-';
    StripAbsent(camel, '-');
  }

  /** The first letter of `s`, if it has one, is upper case. */
  predicate FirstLetterUpper(s: string)
  {
    s == [] || (if IsLetter(s[0]) then IsUpper(s[0]) else FirstLetterUpper(s[1..]))
  }

  lemma {:induction false} CapitalizeFirstLetterUpper(m: Mode, s: string)
    ensures FirstLetterUpper(Capitalize(m, s, true))
  {
    if s != [] && !IsLetter(s[0]) {
      CapitalizeFirstLetterUpper(m, s[1..]);
    }
  }

  lemma {:induction false} StripFirstLetterUpper(s: string, c: char)
    requires !IsLetter(c) && FirstLetterUpper(s)
    ensures FirstLetterUpper(Strip(s, c))
  {
    if s != [] && (s[0] == c || !IsLetter(s[0])) {
      StripFirstLetterUpper(s[1..], c);
    }
  }

  /** Every field name produced from a label starts with an upper-case letter
      (if it has a letter at all). */
  lemma FieldNameFirstLetterUpper(raw: string)
    ensures FirstLetterUpper(FieldName(raw))
  {
    CapitalizeFirstLetterUpper(Title, raw);
    StripFirstLetterUpper(ToTitleCase(raw), ' ');
    StripFirstLetterUpper(Strip(ToTitleCase(raw), ' '), '-');
  }

  /** So no label ever reaches the lower-case `isStub` entry of `assignField`. */
  lemma FieldNameNeverIsStub(raw: string)
    ensures FieldName(raw) != "isStub"
  {
    FieldNameFirstLetterUpper(raw);
  }

  /** A label of lower-case words maps to the alias of their camel case. */
  lemma WordsFieldName(raw: string, ws: seq<string>)
    requires |ws| > 0 && forall i :: 0 <= i < |ws| ==> IsWord(ws[i])
    requires raw == Join(ws, ' ')
    ensures FieldName(raw) == Alias(Camel(ws))
  {
    SquashWords(ws);
  }

  lemma AccessionJoin(ws: seq<string>)
    requires ws == ["drugbank", "accession", "number"]
    ensures Join(ws, ' ') == "drugbank accession number"
  {
    assert Join(ws[2..], ' ') == "number";
    assert Join(ws[1..], ' ') == "accession" + [' '] + "number";
  }

  lemma CamelCons(ws: seq<string>)
    requires ws != []
    ensures Camel(ws) == CapWord(ws[0]) + Camel(ws[1..])
  {
  }

  lemma CapWordOf(w: string, c: char)
    requires |w| > 0 && IsLower(w[0]) && c == UpperChar(w[0])
    ensures CapWord(w) == [c] + w[1..]
  {
  }

  lemma AccessionCapitals(a: string, b: string, c: string)
    requires a == CapWord("drugbank") && b == CapWord("accession") && c == CapWord("number")
    ensures a + b + c == "DrugbankAccessionNumber"
  {
    CapWordOf("drugbank", 'D');
    CapWordOf("accession", 'A');
    CapWordOf("number", 'N');
    assert a == "Drugbank" && b == "Accession" && c == "Number";
  }

  lemma AccessionCamel(ws: seq<string>)
    requires ws == ["drugbank", "accession", "number"]
    ensures Camel(ws) == "DrugbankAccessionNumber"
  {
    CamelCons(ws);
    CamelCons(ws[1..]);
    CamelCons(ws[2..]);
    assert ws[2..][1..] == [];
    AccessionCapitals(CapWord(ws[0]), CapWord(ws[1]), CapWord(ws[2]));
  }

  /** The three labels of a DrugBank detail page that the alias table renames. */
  lemma AccessionNumberLabel(raw: string)
    requires raw == "drugbank accession number"
    ensures FieldName(raw) == "ID"
  {
    var ws := ["drugbank", "accession", "number"];
    AccessionJoin(ws);
    AccessionCamel(ws);
    WordsFieldName(raw, ws);
  }

  lemma GenericNameLabel(raw: string)
    requires raw == "generic name"
    ensures FieldName(raw) == "Molecule"
  {
    var ws := ["generic", "name"];
    assert Join(ws, ' ') == "generic name";
    assert Camel(ws) == "GenericName";
    WordsFieldName(raw, ws);
  }

  lemma CasNumberLabel(raw: string)
    requires raw == "cas number"
    ensures FieldName(raw) == "CAS"
  {
    var ws := ["cas", "number"];
    assert Join(ws, ' ') == "cas number";
    assert Camel(ws) == "CasNumber";
    WordsFieldName(raw, ws);
  }
}
