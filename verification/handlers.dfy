/** The field handlers of main.go (`handleListAsArray`, `handleDescription`,
    `handleMolecularWeight`, `handleInChIHashAndID`, `handleMechanismOfAction`,
    `handleDrugInteractions`), the registry `fieldHandlers` that picks them,
    and the row mapping of `ParseDrugInteractions`. The `dd` element a handler
    reads is replaced by the texts the handler looks at; the pointer it writes
    through by the record and a `Target` naming the field it points at. */
module Handlers {
  import opened Wrappers
  import opened Text
  import opened Casing
  import opened Drug

  /** What the scraper reads from one `dt`/`dd` pair of a drug page: the `dt`
      text, the `dd` text, the texts of the `li` items inside the `dd`, the
      cell texts of each `tbody tr` inside it, and the text of the
      `#drug-interactions-table_info` element inside it. */
  datatype Entry = Entry(title: string, content: string, items: seq<string>,
                         rows: seq<seq<string>>, tableInfo: string)

  datatype Handler =
    | HandleListAsArray
    | HandleDescription
    | HandleMolecularWeight
    | HandleInChIHashAndID
    | HandleDrugInteractions
    | HandleMechanismOfAction

  /** `fieldHandlers`: the handler registered for a property name. */
  function HandlerFor(name: string): Option<Handler>
  {
    if name == "Synonyms" || name == "Categories" || name == "Groups" then Some(HandleListAsArray)
    else if name == "Description" then Some(HandleDescription)
    else if name == "Weight" then Some(HandleMolecularWeight)
    else if name == "Inchi" || name == "InchiKey" then Some(HandleInChIHashAndID)
    else if name == "DrugInteractions" then Some(HandleDrugInteractions)
    else if name == "MechanismOfAction" then Some(HandleMechanismOfAction)
    else None
  }

  /** What the walk hands a handler: a pointer to a `string` field, a pointer
      to a `[]string` field, or a pointer to the whole record. */
  datatype Pointer = StringField(f: Field) | ListField(f: Field) | Record

  /** A pointer of the type it claims: Go's type system makes the `*string`
      of a `[]string` field unrepresentable. */
  type Target = p: Pointer | (p.StringField? ==> KindOf(p.f) == Scalar) && (p.ListField? ==> KindOf(p.f) == List)
    witness Record

  /** The walk's choice of argument: the `string` field with that name if
      there is one, else the `[]string` field, else the record. */
  function TargetFor(name: string): (t: Target)
    ensures t.StringField? ==> Name(t.f) == name && KindOf(t.f) == Scalar
    ensures t.ListField? ==> Name(t.f) == name && KindOf(t.f) == List
    ensures t.Record? <==> forall f :: Name(f) == name ==> KindOf(f) == Composite
  {
    match FieldByName(name)
    case None => Record
    case Some(f) =>
      assert forall g :: Name(g) == name ==> g == f by {
        forall g | Name(g) == name ensures g == f { NameInjective(g, f); }
      }
      match KindOf(f)
      case Scalar => StringField(f)
      case List => ListField(f)
      case Composite => Record
  }

  /** What a handler call does: it updates the record, returns an error (the
      walk logs it and the record stays as it was), or panics (the scraping
      routine recovers and the record is dropped). */
  datatype Effect = Updated(d: DrugInfo) | Refused | Crashed

  /** The trimmed text of each item. */
  function TrimAll(items: seq<string>): seq<string>
  {
    seq(|items|, i requires 0 <= i < |items| => TrimSpace(items[i]))
  }

  /** `handleListAsArray`: appends the trimmed text of every `li` to the list
      field it points at; any other argument is refused. */
  function ListAsArray(t: Target, e: Entry, d: DrugInfo): (r: Effect)
    ensures r.Updated? <==> t.ListField?
    ensures r.Updated? ==>
              var before := GetList(d, t.f);
              var after := GetList(r.d, t.f);
              && |after| == |before| + |e.items|
              && after[..|before|] == before
              && (forall i :: 0 <= i < |e.items| ==> after[|before| + i] == TrimSpace(e.items[i]))
              && (forall g :: g != t.f ==> Get(r.d, g) == Get(d, g))
              && r.d.isStub == d.isStub
  {
    if t.ListField? then
      Updated(SetList(d, t.f, GetList(d, t.f) + TrimAll(e.items)))
    else Refused
  }

  /** `handleDescription`: sentence-cases the `dd` text into the `string`
      field it points at; any other argument is refused. */
  function DescriptionText(t: Target, e: Entry, d: DrugInfo): (r: Effect)
    ensures r.Updated? <==> t.StringField?
    ensures r.Updated? ==>
              var text := GetString(r.d, t.f);
              && |text| == |e.content|
              && (forall i :: 0 <= i < |text| ==>
                    text[i] == e.content[i] || (IsLower(e.content[i]) && text[i] == UpperChar(e.content[i])))
              && (forall g :: g != t.f ==> Get(r.d, g) == Get(d, g))
              && r.d.isStub == d.isStub
    ensures r.Updated? ==> GetString(r.d, t.f) == ToSentenceCase(e.content)
  {
    if t.StringField? then Updated(SetString(d, t.f, ToSentenceCase(e.content)))
    else Refused
  }

  /** The tokens `handleMolecularWeight` reads. */
  function WeightTokens(e: Entry): seq<string>
  {
    Split(Normalize(e.content), ' ')
  }

  /** `handleMolecularWeight`: four tokens give two more weights, the average
      (token 1) and the monoisotopic one (token 3), both in daltons; any other
      count leaves the weights as they are and still succeeds. */
  function MolecularWeight(t: Target, e: Entry, d: DrugInfo): (r: Effect)
    ensures r.Updated? <==> t.Record?
    ensures r.Updated? ==>
              && r.d == d.(weight := r.d.weight)
              && (|WeightTokens(e)| != 4 ==> r.d.weight == d.weight)
              && (|WeightTokens(e)| == 4 ==>
                    && |r.d.weight| == |d.weight| + 2
                    && r.d.weight[..|d.weight|] == d.weight
                    && r.d.weight[|d.weight|].kind == "average"
                    && r.d.weight[|d.weight| + 1].kind == "monoisotopic"
                    && r.d.weight[|d.weight|].units == "Da"
                    && r.d.weight[|d.weight| + 1].units == "Da"
                    && r.d.weight[|d.weight|].weight == WeightTokens(e)[1]
                    && r.d.weight[|d.weight| + 1].weight == WeightTokens(e)[3])
  {
    if !t.Record? then Refused
    else
      var parts := WeightTokens(e);
      if |parts| == 4 then
        Updated(d.(weight := d.weight + [MolWeight("average", parts[1], "Da"),
                                         MolWeight("monoisotopic", parts[3], "Da")]))
      else Updated(d)
  }

  /** `handleInChIHashAndID`: the `InchiKey` entry's text becomes the hash,
      the `Inchi` entry's text the identifier; any other name is refused. */
  function InChIHashAndID(t: Target, name: string, e: Entry, d: DrugInfo): (r: Effect)
    ensures r.Updated? <==> t.Record? && (name == "InchiKey" || name == "Inchi")
    ensures r.Updated? ==> r.d == d.(inChI := r.d.inChI)
    ensures r.Updated? && name == "InchiKey" ==> r.d.inChI == InChiData(e.content, d.inChI.id)
    ensures r.Updated? && name == "Inchi" ==> r.d.inChI == InChiData(d.inChI.hash, e.content)
  {
    if !t.Record? then Refused
    else if name == "InchiKey" then Updated(d.(inChI := d.inChI.(hash := e.content)))
    else if name == "Inchi" then Updated(d.(inChI := d.inChI.(id := e.content)))
    else Refused
  }

  /** The key under which `handleMechanismOfAction` files the cell at
      position `i` of a row. */
  function MoaKey(i: nat): string
  {
    if i == 0 then "target" else if i == 1 then "action" else if i == 2 then "organism" else "unknown"
  }

  /** One mechanism-of-action row: the cells are filed in order, so the
      fourth and later cells all land on "unknown" and the last one wins. */
  function MoaRow(cells: seq<string>): (m: map<string, string>)
    ensures "target" in m <==> |cells| >= 1
    ensures "action" in m <==> |cells| >= 2
    ensures "organism" in m <==> |cells| >= 3
    ensures "unknown" in m <==> |cells| >= 4
    ensures |cells| >= 1 ==> m["target"] == cells[0]
    ensures |cells| >= 2 ==> m["action"] == cells[1]
    ensures |cells| >= 3 ==> m["organism"] == cells[2]
    ensures |cells| >= 4 ==> m["unknown"] == cells[|cells| - 1]
    ensures forall k :: k in m ==> k == "target" || k == "action" || k == "organism" || k == "unknown"
  {
    if cells == [] then map[]
    else
      var n := |cells| - 1;
      MoaRow(cells[..n])[MoaKey(n) := cells[n]]
  }

  /** `handleMechanismOfAction`: the rows of the table replace whatever the
      record held, one map per row. */
  function MechanismOfAction(t: Target, e: Entry, d: DrugInfo): (r: Effect)
    ensures r.Updated? <==> t.Record?
    ensures r.Updated? ==>
              && r.d == d.(moa := r.d.moa)
              && |r.d.moa| == |e.rows|
              && (forall i :: 0 <= i < |e.rows| ==> r.d.moa[i] == MoaRow(e.rows[i]))
  {
    if t.Record? then Updated(d.(moa := seq(|e.rows|, i requires 0 <= i < |e.rows| => MoaRow(e.rows[i]))))
    else Refused
  }

  /** The first match of the anchor pattern `<a href="/drugs/ID">NAME</a>` in
      a cell: its two groups, the other drug's identifier and name. */
  type Anchor = string -> Option<(string, string)>

  /** What the interactions request for one identifier gives: a failed
      fetch, a body that is not the expected JSON, or a body whose `Data`
      rows decode. */
  datatype InteractionsReply =
    | FetchFailed
    | Undecodable(page: string)
    | Decoded(page: string, rows: seq<seq<string>>)

  /** A `Data` row that the mapping of `ParseDrugInteractions` reads without
      panicking: it has a first cell, and a second one when the first holds
      an anchor. */
  predicate RowReadable(row: seq<string>, anchor: Anchor)
  {
    |row| > 0 && (anchor(row[0]).Some? ==> |row| >= 2)
  }

  /** The triple of one readable row: the linked drug's identifier and name
      and the row's description, or nothing when the first cell has no
      anchor. */
  function Interaction(row: seq<string>, anchor: Anchor): (t: seq<string>)
    requires RowReadable(row, anchor)
    ensures |t| == 0 || |t| == 3
    ensures |t| == 3 <==> anchor(row[0]).Some?
    ensures |t| == 3 ==> t[0] == anchor(row[0]).value.0 && t[1] == anchor(row[0]).value.1 && t[2] == row[1]
  {
    match anchor(row[0])
    case Some(m) => [m.0, m.1, row[1]]
    case None => []
  }

  /** The row mapping of `ParseDrugInteractions`: one entry per row, in
      order, or a panic (`None`) at the first unreadable row. */
  function ParseRows(rows: seq<seq<string>>, anchor: Anchor): (r: Option<seq<seq<string>>>)
    ensures r.Some? <==> forall i :: 0 <= i < |rows| ==> RowReadable(rows[i], anchor)
    ensures r.Some? ==>
              |r.value| == |rows| && forall i :: 0 <= i < |rows| ==> r.value[i] == Interaction(rows[i], anchor)
  {
    if rows == [] then Some([])
    else if !RowReadable(rows[0], anchor) then None
    else
      match ParseRows(rows[1..], anchor)
      case None =>
        assert !RowReadable(rows[1..][0], anchor) || exists i :: 1 <= i < |rows[1..]| && !RowReadable(rows[1..][i], anchor);
        None
      case Some(rest) =>
        assert forall i :: 1 <= i < |rows| ==> rows[i] == rows[1..][i - 1];
        Some([Interaction(rows[0], anchor)] + rest)
  }

  /** `handleDrugInteractions`: fetches the interactions of the record's
      identifier; a failed fetch or undecodable body is refused, an
      unreadable row panics, and otherwise the interactions replace the
      record's and the page list becomes an empty string, the table's
      summary text and the body. */
  function FetchInteractions(t: Target, e: Entry, d: DrugInfo,
                            fetch: string -> InteractionsReply, anchor: Anchor): (r: Effect)
    ensures r.Updated? <==> t.Record? && fetch(d.id).Decoded? && ParseRows(fetch(d.id).rows, anchor).Some?
    ensures r.Crashed? <==> t.Record? && fetch(d.id).Decoded? && ParseRows(fetch(d.id).rows, anchor).None?
    ensures r.Updated? ==>
              && r.d == d.(drugInteractions := r.d.drugInteractions, drugInteractionsPage := r.d.drugInteractionsPage)
              && r.d.drugInteractionsPage == ["", e.tableInfo, fetch(d.id).page]
              && |r.d.drugInteractions| == |fetch(d.id).rows|
              && Some(r.d.drugInteractions) == ParseRows(fetch(d.id).rows, anchor)
  {
    if !t.Record? then Refused
    else
      match fetch(d.id)
      case FetchFailed => Refused
      case Undecodable(_) => Refused
      case Decoded(page, rows) =>
        match ParseRows(rows, anchor)
        case None => Crashed
        case Some(interactions) =>
          Updated(d.(drugInteractions := interactions, drugInteractionsPage := ["", e.tableInfo, page]))
  }

  /** One call of handler `h` with pointer `t` and property `name`, as a
      `fieldHandler` is called. A handler given the argument it accepts
      succeeds, except that the InChI handler refuses names it does not know
      and the interactions handler depends on its fetch. */
  function Call(h: Handler, t: Target, name: string, e: Entry, d: DrugInfo,
                fetch: string -> InteractionsReply, anchor: Anchor): (r: Effect)
    ensures r.Crashed? ==> h == HandleDrugInteractions
    ensures Accepts(h, t) && h != HandleInChIHashAndID && h != HandleDrugInteractions ==> r.Updated?
  {
    match h
    case HandleListAsArray => ListAsArray(t, e, d)
    case HandleDescription => DescriptionText(t, e, d)
    case HandleMolecularWeight => MolecularWeight(t, e, d)
    case HandleInChIHashAndID => InChIHashAndID(t, name, e, d)
    case HandleDrugInteractions => FetchInteractions(t, e, d, fetch, anchor)
    case HandleMechanismOfAction => MechanismOfAction(t, e, d)
  }

  /** A handler changes no `string` field except the one it is pointed at. */
  lemma CallKeepsStrings(h: Handler, t: Target, name: string, e: Entry, d: DrugInfo,
                         fetch: string -> InteractionsReply, anchor: Anchor, f: Field)
    requires KindOf(f) == Scalar && t != StringField(f)
    ensures Call(h, t, name, e, d, fetch, anchor).Updated? ==>
            Get(Call(h, t, name, e, d, fetch, anchor).d, f) == Get(d, f)
  {
    var r := Call(h, t, name, e, d, fetch, anchor);
    if r.Updated? {
      match h
      case HandleListAsArray =>
        assert r == ListAsArray(t, e, d);
      case HandleDescription =>
        assert r == DescriptionText(t, e, d);
      case HandleMolecularWeight =>
        assert r == MolecularWeight(t, e, d);
        StringsKept(d, r.d, f);
      case HandleInChIHashAndID =>
        assert r == InChIHashAndID(t, name, e, d);
        StringsKept(d, r.d, f);
      case HandleDrugInteractions =>
        assert r == FetchInteractions(t, e, d, fetch, anchor);
        StringsKept(d, r.d, f);
      case HandleMechanismOfAction =>
        assert r == MechanismOfAction(t, e, d);
        StringsKept(d, r.d, f);
    }
  }

  /** The walk's call of handler `h` for property `name`, on the argument it
      picks for that name: a registered handler other than the interactions
      one never fails. */
  function Apply(h: Handler, name: string, e: Entry, d: DrugInfo,
                 fetch: string -> InteractionsReply, anchor: Anchor): (r: Effect)
    ensures r.Crashed? ==> h == HandleDrugInteractions
    ensures HandlerFor(name) == Some(h) && h != HandleDrugInteractions ==> r.Updated?
  {
    var t := TargetFor(name);
    assert HandlerFor(name) == Some(h) ==> Accepts(h, t) by {
      if HandlerFor(name) == Some(h) { RegistryTargets(name); }
    }
    Call(h, t, name, e, d, fetch, anchor)
  }

  /** No handler changes a `string` field other than the one the property
      names. */
  lemma ApplyKeepsStrings(h: Handler, name: string, e: Entry, d: DrugInfo,
                          fetch: string -> InteractionsReply, anchor: Anchor, f: Field)
    requires KindOf(f) == Scalar && Name(f) != name
    ensures Apply(h, name, e, d, fetch, anchor).Updated? ==>
            Get(Apply(h, name, e, d, fetch, anchor).d, f) == Get(d, f)
  {
    CallKeepsStrings(h, TargetFor(name), name, e, d, fetch, anchor, f);
  }

  /** `Apply` is `Call` on the pointer `TargetFor` picks. */
  lemma ApplyCalls(h: Handler, name: string, e: Entry, d: DrugInfo,
                   fetch: string -> InteractionsReply, anchor: Anchor)
    ensures Apply(h, name, e, d, fetch, anchor) == Call(h, TargetFor(name), name, e, d, fetch, anchor)
  {
  }

  /** A list property appends the trimmed items to its own list. */
  lemma ApplyListAsArray(f: Field, e: Entry, d: DrugInfo, fetch: string -> InteractionsReply, anchor: Anchor)
    requires f == Synonyms || f == Categories || f == Groups
    ensures Apply(HandleListAsArray, Name(f), e, d, fetch, anchor) ==
            Updated(SetList(d, f, GetList(d, f) + TrimAll(e.items)))
  {
    ApplyCalls(HandleListAsArray, Name(f), e, d, fetch, anchor);
    TargetOfField(f);
  }

  /** The description property stores the sentence-cased text. */
  lemma ApplyDescription(f: Field, e: Entry, d: DrugInfo, fetch: string -> InteractionsReply, anchor: Anchor)
    requires f == Description
    ensures Apply(HandleDescription, Name(f), e, d, fetch, anchor) ==
            Updated(SetString(d, f, ToSentenceCase(e.content)))
  {
    ApplyCalls(HandleDescription, Name(f), e, d, fetch, anchor);
    TargetOfField(f);
  }

  /** The weight property appends two weights when the text has four
      tokens, and keeps the record otherwise. */
  lemma ApplyMolecularWeight(f: Field, e: Entry, d: DrugInfo, fetch: string -> InteractionsReply, anchor: Anchor)
    requires f == Weight
    ensures var ts := WeightTokens(e);
            Apply(HandleMolecularWeight, Name(f), e, d, fetch, anchor) ==
            if |ts| == 4 then Updated(d.(weight := d.weight + [MolWeight("average", ts[1], "Da"),
                                                             MolWeight("monoisotopic", ts[3], "Da")]))
            else Updated(d)
  {
    ApplyCalls(HandleMolecularWeight, Name(f), e, d, fetch, anchor);
    TargetOfField(f);
  }

  /** The InChI properties set the hash or the identifier. */
  lemma ApplyInChI(name: string, e: Entry, d: DrugInfo, fetch: string -> InteractionsReply, anchor: Anchor)
    requires name == "InchiKey" || name == "Inchi"
    ensures HandlerFor(name) == Some(HandleInChIHashAndID)
    ensures Apply(HandleInChIHashAndID, name, e, d, fetch, anchor) ==
            if name == "InchiKey" then Updated(d.(inChI := InChiData(e.content, d.inChI.id)))
            else Updated(d.(inChI := InChiData(d.inChI.hash, e.content)))
  {
    ApplyCalls(HandleInChIHashAndID, name, e, d, fetch, anchor);
    NotAFieldName(name);
  }

  /** The mechanism-of-action property replaces the rows. */
  lemma ApplyMechanismOfAction(name: string, e: Entry, d: DrugInfo, fetch: string -> InteractionsReply, anchor: Anchor)
    requires name == "MechanismOfAction"
    ensures HandlerFor(name) == Some(HandleMechanismOfAction)
    ensures Apply(HandleMechanismOfAction, name, e, d, fetch, anchor) ==
            Updated(d.(moa := seq(|e.rows|, i requires 0 <= i < |e.rows| => MoaRow(e.rows[i]))))
  {
    ApplyCalls(HandleMechanismOfAction, name, e, d, fetch, anchor);
    NotAFieldName(name);
  }

  /** The interactions property calls the interactions handler on the
      record. */
  lemma ApplyDrugInteractionsCalls(f: Field, e: Entry, d: DrugInfo, fetch: string -> InteractionsReply, anchor: Anchor)
    requires f == DrugInteractions
    ensures Apply(HandleDrugInteractions, Name(f), e, d, fetch, anchor) == FetchInteractions(Record, e, d, fetch, anchor)
  {
    assert TargetFor(Name(f)) == Record by { TargetOfField(f); }
    ApplyCalls(HandleDrugInteractions, Name(f), e, d, fetch, anchor);
  }

  /** The interactions property: a panic on an unreadable decoded row, an
      error on a failed or undecodable fetch, else the parsed rows and the
      page list are stored. */
  lemma ApplyDrugInteractions(f: Field, e: Entry, d: DrugInfo, fetch: string -> InteractionsReply, anchor: Anchor)
    requires f == DrugInteractions
    ensures HandlerFor(Name(f)) == Some(HandleDrugInteractions)
    ensures Apply(HandleDrugInteractions, Name(f), e, d, fetch, anchor).Crashed? <==>
            fetch(d.id).Decoded? && ParseRows(fetch(d.id).rows, anchor).None?
    ensures !fetch(d.id).Decoded? ==> Apply(HandleDrugInteractions, Name(f), e, d, fetch, anchor) == Refused
    ensures fetch(d.id).Decoded? && ParseRows(fetch(d.id).rows, anchor).Some? ==>
            Apply(HandleDrugInteractions, Name(f), e, d, fetch, anchor) ==
            Updated(d.(drugInteractions := ParseRows(fetch(d.id).rows, anchor).value,
                       drugInteractionsPage := ["", e.tableInfo, fetch(d.id).page]))
  {
    ApplyDrugInteractionsCalls(f, e, d, fetch, anchor);
  }

  /** A record that differs from another only in fields that hold no text
      agrees with it on every `string` field. */
  lemma StringsKept(d: DrugInfo, d': DrugInfo, f: Field)
    requires d' == d.(weight := d'.weight, inChI := d'.inChI, moa := d'.moa,
                      drugInteractions := d'.drugInteractions,
                      drugInteractionsPage := d'.drugInteractionsPage)
    requires KindOf(f) == Scalar
    ensures Get(d', f) == Get(d, f)
  {
  }

  /** The argument a handler accepts without an error. */
  predicate Accepts(h: Handler, t: Target)
  {
    match h
    case HandleListAsArray => t.ListField?
    case HandleDescription => t.StringField?
    case HandleMolecularWeight => t.Record?
    case HandleInChIHashAndID => t.Record?
    case HandleDrugInteractions => t.Record?
    case HandleMechanismOfAction => t.Record?
  }

  /** No handler is registered for the link. */
  lemma UnhandledLink(f: Field)
    requires f == Link
    ensures HandlerFor(Name(f)).None?
  {
  }

  /** No property name is the Go name of a field it is not. */
  lemma NotAFieldName(name: string)
    requires name == "Inchi" || name == "InchiKey" || name == "MechanismOfAction"
    ensures TargetFor(name) == Record
  {
    forall f ensures Name(f) != name {
      match f
      case Smiles => {} case ID => {} case Molecule => {} case CAS => {}
      case IupacName => {} case Background => {} case InChI => {} case InChIKey => {}
      case Summary => {} case Weight => {} case Formula => {} case Description => {}
      case Categories => {} case Link => {} case Type => {} case Groups => {}
      case Synonyms => {} case Indication => {} case IsStub => {} case Pharmacodynamics => {}
      case Moa => {} case AdverseEffects => {} case DrugInteractions => {}
      case DrugInteractionsPage => {} case HalfLife => {} case RouteOfElimination => {}
      case Toxicity => {} case Clearance => {} case Absorption => {}
    }
  }

  /** A property name that is the Go name of a field targets that field
      as its kind says. */
  lemma TargetOfField(f: Field)
    ensures KindOf(f) == Scalar ==> TargetFor(Name(f)) == StringField(f)
    ensures KindOf(f) == List ==> TargetFor(Name(f)) == ListField(f)
    ensures KindOf(f) == Composite ==> TargetFor(Name(f)) == Record
  {
    FieldByNameOfName(f);
  }

  /** Every registered handler is handed the argument it accepts: the list
      handler a `[]string` field, the description handler a `string` field,
      the others the whole record. */
  lemma RegistryTargets(name: string)
    requires HandlerFor(name).Some?
    ensures Accepts(HandlerFor(name).value, TargetFor(name))
  {
    var h := HandlerFor(name).value;
    if h == HandleListAsArray {
      assert name == Name(Synonyms) || name == Name(Categories) || name == Name(Groups);
      TargetOfField(Synonyms);
      TargetOfField(Categories);
      TargetOfField(Groups);
    } else if h == HandleDescription {
      assert name == Name(Description);
      TargetOfField(Description);
    } else if h == HandleMolecularWeight {
      assert name == Name(Weight);
      TargetOfField(Weight);
    } else if h == HandleDrugInteractions {
      assert name == Name(DrugInteractions);
      TargetOfField(DrugInteractions);
    } else {
      NotAFieldName(name);
    }
  }

  /** A word of the molecular-weight text: non-empty, lower case, no white
      space. */
  predicate PlainWord(w: string)
  {
    |w| > 0 && forall c :: c in w ==> !IsSpace(c) && !IsUpper(c)
  }

  /** A text of plain words separated by single spaces gives exactly those
      words as tokens: with four of them the second and the fourth become
      the weights, with any other number nothing is recorded. */
  lemma WeightFromWords(t: Target, e: Entry, d: DrugInfo, ws: seq<string>)
    requires t.Record? && |ws| >= 1
    requires forall i :: 0 <= i < |ws| ==> PlainWord(ws[i])
    requires e.content == Join(ws, ' ')
    ensures |ws| == 4 ==>
              MolecularWeight(t, e, d)
              == Updated(d.(weight := d.weight + [MolWeight("average", ws[1], "Da"),
                                                  MolWeight("monoisotopic", ws[3], "Da")]))
    ensures |ws| != 4 ==> MolecularWeight(t, e, d) == Updated(d)
  {
    var j := Join(ws, ' ');
    JoinShape(ws, ' ');
    forall k | 0 <= k < |j| ensures !IsUpper(j[k]) {
      if j[k] != ' ' {
        var i :| 0 <= i < |ws| && j[k] in ws[i];
      }
    }
    var last := ws[|ws| - 1];
    assert j[0] == ws[0][0] && ws[0][0] in ws[0];
    assert j[|j| - 1] == last[|last| - 1] && last[|last| - 1] in last;
    NormalizeOfNormal(j);
    SplitJoin(ws, ' ');
    assert WeightTokens(e) == ws;
  }

  /** The words of the weight text "average 180.16 da monoisotopic 180.0634". */
  const SampleWeightWords: seq<string> := ["average", "180.16", "da", "monoisotopic", "180.0634"]

  lemma SampleWeightTail(ws: seq<string>)
    requires ws == ["da", "monoisotopic", "180.0634"]
    ensures Join(ws, ' ') == "da monoisotopic 180.0634"
  {
    assert Join(ws[2..], ' ') == "180.0634";
    assert Join(ws[1..], ' ') == "monoisotopic" + [' '] + "180.0634";
    assert Join(ws, ' ') == "da" + [' '] + "monoisotopic 180.0634";
  }

  lemma SampleWeightMiddle(ws: seq<string>)
    requires ws == ["180.16", "da", "monoisotopic", "180.0634"]
    ensures Join(ws, ' ') == "180.16 da monoisotopic 180.0634"
  {
    SampleWeightTail(ws[1..]);
    assert Join(ws, ' ') == "180.16" + [' '] + "da monoisotopic 180.0634";
  }

  lemma SampleWeightText(ws: seq<string>)
    requires ws == SampleWeightWords
    ensures Join(ws, ' ') == "average 180.16 da monoisotopic 180.0634"
  {
    SampleWeightMiddle(ws[1..]);
    assert Join(ws, ' ') == "average" + [' '] + "180.16 da monoisotopic 180.0634";
  }

  lemma SampleWeightWordsPlain(ws: seq<string>)
    requires ws == SampleWeightWords
    ensures forall i :: 0 <= i < |ws| ==> PlainWord(ws[i])
  {
    assert PlainWord("average");
    assert PlainWord("180.16");
    assert PlainWord("da");
    assert PlainWord("monoisotopic");
    assert PlainWord("180.0634");
  }

  /** The weight text "average 180.16 da monoisotopic 180.0634" has five
      tokens, so it records no weight. */
  lemma FiveTokenWeightIgnored(t: Target, e: Entry, d: DrugInfo)
    requires t.Record?
    requires e.content == "average 180.16 da monoisotopic 180.0634"
    ensures MolecularWeight(t, e, d) == Updated(d)
  {
    var ws := SampleWeightWords;
    SampleWeightText(ws);
    SampleWeightWordsPlain(ws);
    WeightFromWords(t, e, d, ws);
  }

  /** The list handler appends: two entries add their items in order. */
  lemma ListAsArrayAppends(t: Target, e1: Entry, e2: Entry, d: DrugInfo)
    requires t.ListField?
    ensures ListAsArray(t, e2, ListAsArray(t, e1, d).d)
            == ListAsArray(t, e1.(items := e1.items + e2.items), d)
  {
    var f := t.f;
    var l := GetList(d, f);
    var d1 := SetList(d, f, l + TrimAll(e1.items));
    assert ListAsArray(t, e1, d) == Updated(d1);
    assert GetList(d1, f) == l + TrimAll(e1.items);
    assert ListAsArray(t, e2, d1) == Updated(SetList(d1, f, GetList(d1, f) + TrimAll(e2.items)));
    SetListTwice(d, f, l + TrimAll(e1.items), l + TrimAll(e1.items) + TrimAll(e2.items));
    TrimAllAppend(e1.items, e2.items);
    assert l + TrimAll(e1.items) + TrimAll(e2.items) == l + TrimAll(e1.items + e2.items);
  }

  /** Trimming distributes over concatenated items. */
  lemma TrimAllAppend(a: seq<string>, b: seq<string>)
    ensures TrimAll(a) + TrimAll(b) == TrimAll(a + b)
  {
  }

  /** The mechanism-of-action handler replaces: of two tables only the second
      survives. */
  lemma MechanismOfActionReplaces(t: Target, e1: Entry, e2: Entry, d: DrugInfo)
    requires t.Record?
    ensures MechanismOfAction(t, e2, MechanismOfAction(t, e1, d).d) == MechanismOfAction(t, e2, d)
  {
  }

  /** The hash and the identifier land in different halves of the InChI pair,
      so the two entries can come in either order. */
  lemma InChIEntriesCommute(t: Target, key: Entry, id: Entry, d: DrugInfo)
    requires t.Record?
    ensures InChIHashAndID(t, "Inchi", id, InChIHashAndID(t, "InchiKey", key, d).d)
            == InChIHashAndID(t, "InchiKey", key, InChIHashAndID(t, "Inchi", id, d).d)
            == Updated(d.(inChI := InChiData(key.content, id.content)))
  {
  }

  lemma AppendReadable(a: seq<seq<string>>, b: seq<seq<string>>, anchor: Anchor)
    requires forall i :: 0 <= i < |a| ==> RowReadable(a[i], anchor)
    requires forall i :: 0 <= i < |b| ==> RowReadable(b[i], anchor)
    ensures forall i :: 0 <= i < |a + b| ==> RowReadable((a + b)[i], anchor)
  {
    var ab := a + b;
    forall i | 0 <= i < |ab| ensures RowReadable(ab[i], anchor) {
      if i < |a| { assert ab[i] == a[i]; } else { assert ab[i] == b[i - |a|]; }
    }
  }

  /** The row mapping of two stretches of rows is the mapping of each. */
  lemma ParseRowsAppend(a: seq<seq<string>>, b: seq<seq<string>>, anchor: Anchor)
    requires ParseRows(a, anchor).Some? && ParseRows(b, anchor).Some?
    ensures ParseRows(a + b, anchor) == Some(ParseRows(a, anchor).value + ParseRows(b, anchor).value)
  {
    var ab := a + b;
    AppendReadable(a, b, anchor);
    var r := ParseRows(ab, anchor).value;
    var x, y := ParseRows(a, anchor).value, ParseRows(b, anchor).value;
    var xy := x + y;
    forall i | 0 <= i < |r| ensures r[i] == xy[i] {
      if i < |a| {
        assert ab[i] == a[i] && xy[i] == x[i];
      } else {
        assert ab[i] == b[i - |a|] && xy[i] == y[i - |a|];
      }
    }
    assert r == xy;
  }

  /** No handler touches the stub flag. */
  lemma HandlersKeepStub(h: Handler, name: string, e: Entry, d: DrugInfo,
                         fetch: string -> InteractionsReply, anchor: Anchor)
    requires Apply(h, name, e, d, fetch, anchor).Updated?
    ensures Apply(h, name, e, d, fetch, anchor).d.isStub == d.isStub
  {
    var t := TargetFor(name);
    match h
    case HandleListAsArray => assert Apply(h, name, e, d, fetch, anchor) == ListAsArray(t, e, d);
    case HandleDescription => assert Apply(h, name, e, d, fetch, anchor) == DescriptionText(t, e, d);
    case HandleMolecularWeight =>
    case HandleInChIHashAndID =>
    case HandleDrugInteractions =>
    case HandleMechanismOfAction =>
  }
}
