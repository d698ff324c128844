/** The statistics `main` (main.go) gathers over the scraped records:
    `isValidDrugInfo`, the `UniqueSet` maps, and the loop that folds every
    record into the `DrugInfoStats` summary. The channel the records arrive
    on is replaced by the sequence of records in arrival order. */
module Stats {
  import opened Drug
  import Fetch
  import Unique

  /** `isValidDrugInfo`: the field-count guard (always passed, `DrugInfo`
      has 29 fields), then the four lists and the two InChI parts must be
      non-empty. The blank-string count it also computes is never used. */
  function IsValid(d: DrugInfo): (b: bool)
    ensures b <==> && |d.synonyms| > 0 && |d.weight| > 0 && |d.moa| > 0 && |d.categories| > 0
                   && d.inChI.id != "" && d.inChI.hash != ""
  {
    if NumField <= 4 then false
    else if |d.synonyms| == 0 || |d.weight| == 0 || |d.moa| == 0 || |d.categories| == 0 then false
    else if d.inChI.id == "" || d.inChI.hash == "" then false
    else true
  }

  /** Validity does not depend on any `string` field. */
  lemma ValidIgnoresStrings(d: DrugInfo, f: Field, v: string)
    requires KindOf(f) == Scalar
    ensures IsValid(SetString(d, f, v)) == IsValid(d)
  {
    var r := SetString(d, f, v);
    assert Get(r, Synonyms) == Get(d, Synonyms) && Get(r, Weight) == Get(d, Weight);
    assert Get(r, Moa) == Get(d, Moa) && Get(r, Categories) == Get(d, Categories);
    assert Get(r, InChI) == Get(d, InChI);
    ValidityFieldsOfGet(r, d);
  }

  lemma ValidityFieldsOfGet(a: DrugInfo, b: DrugInfo)
    requires Get(a, Synonyms) == Get(b, Synonyms) && Get(a, Weight) == Get(b, Weight)
    requires Get(a, Moa) == Get(b, Moa) && Get(a, Categories) == Get(b, Categories)
    requires Get(a, InChI) == Get(b, InChI)
    ensures IsValid(a) == IsValid(b)
  {
  }

  /** The loop state of `main`'s aggregation: `TotalLength`, `TotalStubs`,
      the duplicate `UniqueSet` and its total, the valid `UniqueSet` and its
      total, `FieldCounts`, and the local `fieldLengths`. */
  datatype Tally = Tally(
    totalLength: nat,
    totalStubs: nat,
    seen: map<string, bool>,
    duplicates: nat,
    validIds: map<string, bool>,
    validTotal: nat,
    fieldCounts: map<Field, nat>,
    fieldLengths: map<Field, nat>)

  const NoTally: Tally := Tally(0, 0, map[], 0, map[], 0, map[], map[])

  /** A Go map read: the zero value for a missing key. */
  function CountOf(m: map<Field, nat>, f: Field): nat
  {
    if f in m then m[f] else 0
  }

  /** The duplicate bookkeeping for one more identifier: a new one is
      recorded as not duplicated; its second occurrence marks it and counts
      one duplicate; later occurrences change nothing. */
  function See(seen: map<string, bool>, duplicates: nat, id: string): (r: (map<string, bool>, nat))
    ensures id in r.0 && (r.0[id] <==> id in seen)
    ensures r.1 == if id in seen && !seen[id] then duplicates + 1 else duplicates
    ensures forall k :: k != id ==> (k in r.0 <==> k in seen) && (k in seen ==> r.0[k] == seen[k])
  {
    match Unique.Get(seen, id)
    case None => (Unique.Add(seen, id, false), duplicates)
    case Some(duplicate) =>
      if !duplicate then (Unique.Add(seen, id, true), duplicates + 1) else (seen, duplicates)
  }

  /** One iteration of the aggregation loop. */
  function Add(t: Tally, d: DrugInfo): Tally
  {
    var (seen, duplicates) := See(t.seen, t.duplicates, d.id);
    var valid := IsValid(d);
    Tally(t.totalLength + 1,
          t.totalStubs + (if d.isStub then 1 else 0),
          seen,
          duplicates,
          if valid then Unique.Add(t.validIds, d.id, true) else t.validIds,
          t.validTotal + (if valid then 1 else 0),
          Bump(t.fieldCounts),
          AddLengths(t.fieldLengths, d))
  }

  /** Every field counted once more. */
  function Bump(counts: map<Field, nat>): (r: map<Field, nat>)
    ensures forall f :: f in r && r[f] == CountOf(counts, f) + 1
  {
    var r := map f | f in AllFields :: CountOf(counts, f) + 1;
    assert forall f :: f in r by { forall f ensures f in AllFields { AllFieldsListed(f); } }
    r
  }

  /** Every `string` field's length added to its total; other fields are
      never entered. */
  function AddLengths(lengths: map<Field, nat>, d: DrugInfo): (r: map<Field, nat>)
    ensures forall f :: f in r <==> KindOf(f) == Scalar
    ensures forall f :: KindOf(f) == Scalar ==> r[f] == CountOf(lengths, f) + |GetString(d, f)|
  {
    var r := map f | f in AllFields && KindOf(f) == Scalar :: CountOf(lengths, f) + |GetString(d, f)|;
    assert forall f :: KindOf(f) == Scalar ==> f in r by { forall f ensures f in AllFields { AllFieldsListed(f); } }
    r
  }

  /** The loop over the records, in arrival order. */
  function TallyOf(rs: seq<DrugInfo>): Tally
  {
    if rs == [] then NoTally else Add(TallyOf(rs[..|rs| - 1]), rs[|rs| - 1])
  }

  lemma TallySnoc(rs: seq<DrugInfo>, d: DrugInfo)
    ensures TallyOf(rs + [d]) == Add(TallyOf(rs), d)
  {
    assert (rs + [d])[..|rs|] == rs;
  }

  /** The identifiers of the records, in order. */
  function Ids(rs: seq<DrugInfo>): (ids: seq<string>)
    ensures |ids| == |rs| && forall i :: 0 <= i < |rs| ==> ids[i] == rs[i].id
  {
    seq(|rs|, i requires 0 <= i < |rs| => rs[i].id)
  }

  /** The identifiers a duplicate set marks. */
  function Marked(seen: map<string, bool>): set<string>
  {
    set id | id in seen && seen[id]
  }

  lemma IdsSnoc(rs: seq<DrugInfo>)
    requires rs != []
    ensures multiset(Ids(rs)) == multiset(Ids(rs[..|rs| - 1])) + multiset{rs[|rs| - 1].id}
  {
    assert Ids(rs) == Ids(rs[..|rs| - 1]) + [rs[|rs| - 1].id];
  }

  /** The duplicate set holds every identifier that occurs, marked exactly
      when it occurs at least twice, and the duplicate total is the number of
      marked identifiers. */
  lemma {:induction false} TallyDuplicates(rs: seq<DrugInfo>)
    ensures Records(TallyOf(rs).seen, multiset(Ids(rs)))
    ensures TallyOf(rs).duplicates == |Marked(TallyOf(rs).seen)|
    decreases |rs|
  {
    if rs != [] {
      var p := rs[..|rs| - 1];
      var id := rs[|rs| - 1].id;
      TallyDuplicates(p);
      IdsSnoc(rs);
      var t := TallyOf(p);
      var (seen, duplicates) := See(t.seen, t.duplicates, id);
      assert TallyOf(rs).seen == seen && TallyOf(rs).duplicates == duplicates;
      if !Unique.Contains(t.seen, id) {
        assert Marked(seen) == Marked(t.seen);
      } else if !t.seen[id] {
        assert Marked(seen) == Marked(t.seen) + {id};
        assert id !in Marked(t.seen);
      } else {
      }
    }
  }

  /** What `TallyDuplicates` establishes about one duplicate set. */
  ghost predicate Records(seen: map<string, bool>, occurrences: multiset<string>)
  {
    && (forall id :: id in seen <==> occurrences[id] > 0)
    && (forall id :: id in seen ==> (seen[id] <==> occurrences[id] >= 2))
  }

  lemma RecordsUnique(a: map<string, bool>, b: map<string, bool>, occurrences: multiset<string>)
    requires Records(a, occurrences) && Records(b, occurrences)
    ensures a == b
  {
    forall id | id in a ensures id in b && a[id] == b[id] { }
    forall id | id in b ensures id in a { }
  }

  /** The duplicate set and total depend only on how often each identifier
      occurs, not on the order the records arrive in. */
  lemma DuplicatesOrderFree(a: seq<DrugInfo>, b: seq<DrugInfo>)
    requires multiset(Ids(a)) == multiset(Ids(b))
    ensures TallyOf(a).seen == TallyOf(b).seen
    ensures TallyOf(a).duplicates == TallyOf(b).duplicates
  {
    TallyDuplicates(a);
    TallyDuplicates(b);
    RecordsUnique(TallyOf(a).seen, TallyOf(b).seen, multiset(Ids(a)));
  }

  /** An identifier seen three times counts as one duplicate, and one seen
      once stays unmarked. */
  lemma TripleCountsOnce(x: DrugInfo, y: DrugInfo)
    requires x.id != y.id
    ensures TallyOf([x, x, x, y]).duplicates == 1
    ensures TallyOf([x, x, x, y]).seen == map[x.id := true, y.id := false]
  {
    TallySnoc([], x);
    TallySnoc([x], x);
    TallySnoc([x, x], x);
    TallySnoc([x, x, x], y);
    assert [] + [x] == [x] && [x] + [x] == [x, x] && [x, x] + [x] == [x, x, x] && [x, x, x] + [y] == [x, x, x, y];
  }

  /** The number of valid records. */
  function CountValid(rs: seq<DrugInfo>): nat
  {
    if rs == [] then 0 else (if IsValid(rs[0]) then 1 else 0) + CountValid(rs[1..])
  }

  lemma {:induction false} CountValidSnoc(rs: seq<DrugInfo>, d: DrugInfo)
    ensures CountValid(rs + [d]) == CountValid(rs) + (if IsValid(d) then 1 else 0)
    decreases |rs|
  {
    if rs != [] {
      assert (rs + [d])[1..] == rs[1..] + [d];
      CountValidSnoc(rs[1..], d);
    }
  }

  /** The identifiers of the valid records. */
  ghost function ValidIds(rs: seq<DrugInfo>): set<string>
  {
    set i | 0 <= i < |rs| && IsValid(rs[i]) :: rs[i].id
  }

  lemma ValidIdsSnoc(rs: seq<DrugInfo>, d: DrugInfo)
    ensures ValidIds(rs + [d]) == ValidIds(rs) + (if IsValid(d) then {d.id} else {})
  {
    var q := rs + [d];
    forall id | id in ValidIds(q) ensures id in ValidIds(rs) + (if IsValid(d) then {d.id} else {}) {
      var i :| 0 <= i < |q| && IsValid(q[i]) && q[i].id == id;
      if i < |rs| {
        assert rs[i] == q[i];
      }
    }
    forall id | id in ValidIds(rs) ensures id in ValidIds(q) {
      var i :| 0 <= i < |rs| && IsValid(rs[i]) && rs[i].id == id;
      assert q[i] == rs[i];
    }
    if IsValid(d) {
      assert q[|rs|] == d;
    }
  }

  /** The valid total counts valid records, so a valid identifier that
      occurs twice counts twice. */
  lemma {:induction false} TallyValidTotal(rs: seq<DrugInfo>)
    ensures TallyOf(rs).validTotal == CountValid(rs)
    decreases |rs|
  {
    if rs != [] {
      var p := rs[..|rs| - 1];
      var d := rs[|rs| - 1];
      TallyValidTotal(p);
      assert rs == p + [d];
      CountValidSnoc(p, d);
    }
  }

  /** The valid set holds exactly the identifiers of valid records, all
      mapped to true. */
  lemma {:induction false} TallyValidIds(rs: seq<DrugInfo>)
    ensures TallyOf(rs).validIds.Keys == ValidIds(rs)
    ensures forall id :: id in TallyOf(rs).validIds ==> TallyOf(rs).validIds[id]
    decreases |rs|
  {
    if rs != [] {
      var p := rs[..|rs| - 1];
      var d := rs[|rs| - 1];
      TallyValidIds(p);
      assert rs == p + [d];
      ValidIdsSnoc(p, d);
    } else {
      assert ValidIds(rs) == {};
    }
  }

  /** Two valid records with the same identifier: a total of two, a set of
      one. */
  lemma ValidTotalCountsRecords(x: DrugInfo)
    requires IsValid(x)
    ensures TallyOf([x, x]).validTotal == 2
    ensures TallyOf([x, x]).validIds == map[x.id := true]
  {
    TallySnoc([], x);
    TallySnoc([x], x);
    assert [] + [x] == [x] && [x] + [x] == [x, x];
  }

  /** Every field of every record is counted, so each field's count is the
      number of records. */
  lemma {:induction false} TallyFieldCounts(rs: seq<DrugInfo>)
    ensures rs == [] ==> TallyOf(rs).fieldCounts == map[]
    ensures rs != [] ==> forall f :: f in TallyOf(rs).fieldCounts && TallyOf(rs).fieldCounts[f] == |rs|
    decreases |rs|
  {
    if rs != [] {
      var p := rs[..|rs| - 1];
      TallyFieldCounts(p);
      forall f ensures f in TallyOf(rs).fieldCounts && TallyOf(rs).fieldCounts[f] == |rs| {
        AllFieldsListed(f);
      }
    }
  }

  /** The total length of one `string` field over the records. */
  function SumLen(rs: seq<DrugInfo>, f: Field): nat
    requires KindOf(f) == Scalar
  {
    if rs == [] then 0 else |GetString(rs[0], f)| + SumLen(rs[1..], f)
  }

  lemma {:induction false} SumLenSnoc(rs: seq<DrugInfo>, d: DrugInfo, f: Field)
    requires KindOf(f) == Scalar
    ensures SumLen(rs + [d], f) == SumLen(rs, f) + |GetString(d, f)|
    decreases |rs|
  {
    if rs != [] {
      assert (rs + [d])[1..] == rs[1..] + [d];
      SumLenSnoc(rs[1..], d, f);
    }
  }

  /** `fieldLengths` holds, for each `string` field, its total length. */
  lemma {:induction false} TallyFieldLengths(rs: seq<DrugInfo>, f: Field)
    requires KindOf(f) == Scalar
    ensures CountOf(TallyOf(rs).fieldLengths, f) == SumLen(rs, f)
    decreases |rs|
  {
    if rs != [] {
      var p := rs[..|rs| - 1];
      TallyFieldLengths(p, f);
      assert rs == p + [rs[|rs| - 1]];
      SumLenSnoc(p, rs[|rs| - 1], f);
      AllFieldsListed(f);
    }
  }

  /** The stub total counts stub records. */
  function CountStubs(rs: seq<DrugInfo>): nat
  {
    if rs == [] then 0 else (if rs[0].isStub then 1 else 0) + CountStubs(rs[1..])
  }

  lemma {:induction false} CountStubsSnoc(rs: seq<DrugInfo>, d: DrugInfo)
    ensures CountStubs(rs + [d]) == CountStubs(rs) + (if d.isStub then 1 else 0)
    decreases |rs|
  {
    if rs != [] {
      assert (rs + [d])[1..] == rs[1..] + [d];
      CountStubsSnoc(rs[1..], d);
    }
  }

  /** The length total is the number of records and the stub total the
      number of stubs. */
  lemma {:induction false} TallyTotals(rs: seq<DrugInfo>)
    ensures TallyOf(rs).totalLength == |rs|
    ensures TallyOf(rs).totalStubs == CountStubs(rs)
    decreases |rs|
  {
    if rs != [] {
      var p := rs[..|rs| - 1];
      TallyTotals(p);
      assert rs == p + [rs[|rs| - 1]];
      CountStubsSnoc(p, rs[|rs| - 1]);
    }
  }

  /** `DrugInfoStats`, with the completeness figures as exact ratios in
      percent rather than formatted text. */
  datatype DrugInfoStats = DrugInfoStats(
    fieldCounts: map<Field, nat>,
    averageFieldLengths: map<Field, nat>,
    fieldCompleteness: map<Field, real>,
    totalStubs: nat,
    totalLength: nat,
    duplicateIds: map<string, bool>,
    duplicateTotal: nat,
    validIds: map<string, bool>,
    validTotal: nat,
    validLengths: map<int, int>,
    numRetries: nat,
    numRequests: nat,
    numErrors: nat,
    numSleeps: nat,
    errorLog: seq<Fetch.ErrorEntry>)

  /** The average length of every counted field, rounding down; a field
      with no recorded length averages 0. */
  function Averages(counts: map<Field, nat>, lengths: map<Field, nat>): (r: map<Field, nat>)
    ensures r.Keys == counts.Keys
    ensures forall f :: f in counts && counts[f] > 0 ==> r[f] * counts[f] <= CountOf(lengths, f) < (r[f] + 1) * counts[f]
  {
    map f | f in counts :: if counts[f] > 0 then CountOf(lengths, f) / counts[f] else 0
  }

  /** The share of `n` records that each counted field reached, in percent.
      With no records the loop that fills it never runs. */
  function Completeness(counts: map<Field, nat>, n: nat): (r: map<Field, real>)
    ensures n > 0 ==> r.Keys == counts.Keys
    ensures n == 0 ==> r == map[]
    ensures forall f :: f in r ==> r[f] * (n as real) == (counts[f] as real) * 100.0
  {
    if n == 0 then map[] else map f | f in counts :: (counts[f] as real) / (n as real) * 100.0
  }

  /** The end of `main`: the loop over the records, then the averages and
      completeness of every counted field, then the fetch counters. */
  function Summarize(rs: seq<DrugInfo>, c: Fetch.Counters): (s: DrugInfoStats)
    ensures s.numRequests == c.requests && s.numRetries == c.retries
    ensures s.numErrors == c.errors && s.numSleeps == c.sleeps && s.errorLog == c.errorLog
  {
    var t := TallyOf(rs);
    DrugInfoStats(
      t.fieldCounts,
      Averages(t.fieldCounts, t.fieldLengths),
      Completeness(t.fieldCounts, |rs|),
      t.totalStubs,
      t.totalLength,
      t.seen,
      t.duplicates,
      t.validIds,
      t.validTotal,
      map[],
      c.retries,
      c.requests,
      c.errors,
      c.sleeps,
      c.errorLog)
  }

  lemma FullWhenCountsEqual(counts: map<Field, nat>, n: nat, f: Field)
    requires n > 0 && f in counts && counts[f] == n
    ensures f in Completeness(counts, n) && Completeness(counts, n)[f] == 100.0
  {
    var x := n as real;
    assert x / x == 1.0;
  }

  /** Every field is complete in every run: each count equals the number of
      records. */
  lemma CompletenessAlwaysFull(rs: seq<DrugInfo>, c: Fetch.Counters, f: Field)
    requires rs != []
    ensures f in Summarize(rs, c).fieldCompleteness
    ensures Summarize(rs, c).fieldCompleteness[f] == 100.0
  {
    var t := TallyOf(rs);
    assert Summarize(rs, c).fieldCompleteness == Completeness(t.fieldCounts, |rs|);
    TallyFieldCounts(rs);
    FullWhenCountsEqual(t.fieldCounts, |rs|, f);
  }

  lemma AverageOf(counts: map<Field, nat>, lengths: map<Field, nat>, f: Field, n: nat)
    requires n > 0 && f in counts && counts[f] == n
    ensures f in Averages(counts, lengths) && Averages(counts, lengths)[f] == CountOf(lengths, f) / n
  {
  }

  /** Only `string` fields ever have a length recorded. */
  lemma {:induction false} TallyLengthsOnlyStrings(rs: seq<DrugInfo>, f: Field)
    requires KindOf(f) != Scalar
    ensures CountOf(TallyOf(rs).fieldLengths, f) == 0
  {
    if rs != [] {
      var t := TallyOf(rs[..|rs| - 1]);
      assert TallyOf(rs).fieldLengths == AddLengths(t.fieldLengths, rs[|rs| - 1]);
    }
  }

  /** The average length of a `string` field is its total length divided,
      rounding down, by the number of records. */
  lemma AverageStringLength(rs: seq<DrugInfo>, c: Fetch.Counters, f: Field)
    requires rs != [] && KindOf(f) == Scalar
    ensures f in Summarize(rs, c).averageFieldLengths
    ensures Summarize(rs, c).averageFieldLengths[f] == SumLen(rs, f) / |rs|
  {
    var t := TallyOf(rs);
    assert Summarize(rs, c).averageFieldLengths == Averages(t.fieldCounts, t.fieldLengths);
    TallyFieldCounts(rs);
    TallyFieldLengths(rs, f);
    AverageOf(t.fieldCounts, t.fieldLengths, f, |rs|);
  }

  /** A list or composite field is counted but averages 0. */
  lemma AverageOtherField(rs: seq<DrugInfo>, c: Fetch.Counters, f: Field)
    requires rs != [] && KindOf(f) != Scalar
    ensures f in Summarize(rs, c).averageFieldLengths
    ensures Summarize(rs, c).averageFieldLengths[f] == 0
  {
    var t := TallyOf(rs);
    assert Summarize(rs, c).averageFieldLengths == Averages(t.fieldCounts, t.fieldLengths);
    TallyFieldCounts(rs);
    TallyLengthsOnlyStrings(rs, f);
    AverageOf(t.fieldCounts, t.fieldLengths, f, |rs|);
  }
}
