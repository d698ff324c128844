/** `getLinksPerPage` (main.go): the drug links of one listing page. The HTML
    table is replaced by its rows, each the list of its `td` cells. */
module Listing {
  import opened Wrappers
  import opened Drug

  /** The origin the listing's relative links are resolved against. */
  const SiteRoot: string := "https://go.drugbank.com"

  /** A `td` cell: its text, and the `href` of the first anchor inside it when
      that anchor exists and carries one. */
  datatype Cell = Cell(text: string, href: Option<string>)

  /** A `tr` of `#drugs-table`: its `td` cells; a header row has none. */
  type Row = seq<Cell>

  /** The link of a row: named after its first cell's text, pointing at the
      first cell's anchor, or empty when there is none. */
  function LinkFor(row: Row): (l: DrugLink)
    requires |row| > 0
    ensures l.name == row[0].text
    ensures row[0].href.None? <==> l.link == ""
    ensures row[0].href.Some? ==> l.link == SiteRoot + row[0].href.value
  {
    DrugLink(row[0].text, if row[0].href.Some? then SiteRoot + row[0].href.value else "")
  }

  /** `getLinksPerPage`: one link per row that has cells, in table order. */
  function LinksPerPage(rows: seq<Row>): (links: seq<DrugLink>)
    ensures |links| <= |rows|
  {
    if rows == [] then []
    else (if |rows[0]| > 0 then [LinkFor(rows[0])] else []) + LinksPerPage(rows[1..])
  }

  /** The links of two consecutive stretches of rows are the links of each,
      in order. */
  lemma {:induction false} LinksAppend(a: seq<Row>, b: seq<Row>)
    ensures LinksPerPage(a + b) == LinksPerPage(a) + LinksPerPage(b)
    decreases |a|
  {
    if a == [] {
      assert a + b == b;
    } else {
      assert (a + b)[1..] == a[1..] + b;
      LinksAppend(a[1..], b);
    }
  }

  /** Every link comes from a row with cells. */
  lemma {:induction false} LinksSound(rows: seq<Row>, k: nat)
    requires k < |LinksPerPage(rows)|
    ensures exists i :: 0 <= i < |rows| && |rows[i]| > 0 && LinksPerPage(rows)[k] == LinkFor(rows[i])
    decreases |rows|
  {
    var head := if |rows[0]| > 0 then [LinkFor(rows[0])] else [];
    var tail := LinksPerPage(rows[1..]);
    assert LinksPerPage(rows) == head + tail;
    if k < |head| {
      assert LinksPerPage(rows)[k] == LinkFor(rows[0]);
    } else {
      LinksSound(rows[1..], k - |head|);
      var i :| 0 <= i < |rows[1..]| && |rows[1..][i]| > 0 && tail[k - |head|] == LinkFor(rows[1..][i]);
      assert rows[1..][i] == rows[i + 1];
      assert LinksPerPage(rows)[k] == tail[k - |head|];
    }
  }

  /** Every row with cells gives a link. */
  lemma {:induction false} LinksComplete(rows: seq<Row>, i: nat)
    requires i < |rows| && |rows[i]| > 0
    ensures LinkFor(rows[i]) in LinksPerPage(rows)
    decreases |rows|
  {
    if i > 0 {
      LinksComplete(rows[1..], i - 1);
      assert rows[1..][i - 1] == rows[i];
    }
  }

  /** A page whose rows carry no cells (the header alone) gives no link. */
  lemma {:induction false} HeaderOnly(rows: seq<Row>)
    requires forall i :: 0 <= i < |rows| ==> rows[i] == []
    ensures LinksPerPage(rows) == []
    decreases |rows|
  {
    if rows != [] {
      HeaderOnly(rows[1..]);
    }
  }

  /** A link is empty or absolute on the site. */
  lemma LinkShape(rows: seq<Row>, k: nat)
    requires k < |LinksPerPage(rows)|
    ensures var l := LinksPerPage(rows)[k].link; l == "" || SiteRoot <= l
  {
    LinksSound(rows, k);
  }
}
