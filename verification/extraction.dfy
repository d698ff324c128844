/** The field walk of `scrapePageRoutine` (main.go) and its fallback
    `assignField` with `setFieldByName`: each `dt`/`dd` pair of a drug page is
    skipped, handed to a registered handler, or stored by name. A page is
    replaced by its stub notice text and its entries. */
module Extraction {
  import opened Wrappers
  import opened Text
  import opened Casing
  import opened Drug
  import opened Handlers

  /** The marker DrugBank puts in a field it has no data for. */
  const NotAvailable: string := "Not Available"

  /** The notice on pages whose entry is a stub, already normalised. */
  const StubNoticeText: string :=
    "this drug entry is a stub and has not been fully annotated. it is scheduled to be annotated soon."

  /** The advertising paragraph embedded in the adverse-effects field. */
  const AdverseEffectsPromo: string :=
    "Improve decision support & research outcomesWith structured adverse effects data, including: blackbox warnings, adverse reactions, warning & precautions, & incidence rates. View sample adverse effects data in our new Data Library!See the data  Improve decision support & research outcomes with our structured adverse effects data.See a data sample"

  /** The three ways a `dd` says it holds nothing. */
  predicate IsSentinel(content: string)
  {
    content == NotAvailable || content == "N/A" || Normalize(content) == "not available"
  }

  /** `setFieldByName` with a text value: only a `string` field of that Go
      name accepts it; anything else is an error and changes nothing. */
  function SetFieldByName(d: DrugInfo, name: string, v: string): (r: Option<DrugInfo>)
    ensures r.Some? <==> exists f :: Name(f) == name && KindOf(f) == Scalar
    ensures forall f :: Name(f) == name && r.Some? ==>
              Get(r.value, f) == Str(v) && forall g :: g != f ==> Get(r.value, g) == Get(d, g)
    ensures r.Some? ==> r.value.isStub == d.isStub
  {
    match FieldByName(name)
    case None => None
    case Some(f) =>
      assert forall g :: Name(g) == name ==> g == f by {
        forall g | Name(g) == name ensures g == f { NameInjective(g, f); }
      }
      if KindOf(f) == Scalar then Some(SetString(d, f, v)) else None
  }

  /** The value `strconv.ParseBool` yields; a text it rejects gives false. */
  predicate ParseBool(s: string)
  {
    s == "1" || s == "t" || s == "T" || s == "TRUE" || s == "true" || s == "True"
  }

  /** The text `assignField` stores under `name`: title-cased when `name`
      equals the current description, upper-cased when it equals the current
      InChI hash or identifier, verbatim otherwise. */
  function Stored(d: DrugInfo, name: string, v: string): (r: string)
    ensures |r| == |v|
  {
    if name == d.description then ToTitleCase(v)
    else if name == d.inChI.hash then ToUpper(v)
    else if name == d.id then ToUpper(v)
    else v
  }

  /** The adverse-effects text without its advertising paragraph; any other
      text as it is. */
  function Cleaned(name: string, content: string): (r: string)
    ensures |r| <= |content|
    ensures !Contains(content, AdverseEffectsPromo) ==> r == content
  {
    if name == "AdverseEffects" then RemoveAll(content, AdverseEffectsPromo) else content
  }

  /** `assignField`: a value containing the not-available marker is dropped;
      the adverse-effects text loses its advertising paragraph; `isStub` is
      parsed as a boolean; anything else goes through `setFieldByName`. */
  function AssignField(d: DrugInfo, name: string, content: string): (r: DrugInfo)
    ensures Contains(content, NotAvailable) ==> r == d
    ensures forall f :: Get(r, f) != Get(d, f) ==>
              if name == "isStub" then f == IsStub else Name(f) == name && KindOf(f) == Scalar
    ensures name != "isStub" ==> r.isStub == d.isStub
  {
    if Contains(content, NotAvailable) then d
    else
      var v := Cleaned(name, content);
      if name == "isStub" then d.(isStub := ParseBool(v))
      else SetFieldByName(d, name, Stored(d, name, v)).GetOr(d)
  }

  /** A `string` field named by the property receives the cleaned value,
      cased as `Stored` says. */
  lemma AssignStores(d: DrugInfo, f: Field, content: string)
    requires KindOf(f) == Scalar && !Contains(content, NotAvailable)
    ensures Get(AssignField(d, Name(f), content), f) == Str(Stored(d, Name(f), Cleaned(Name(f), content)))
  {
    FieldNameTable(f);
    var v := Stored(d, Name(f), Cleaned(Name(f), content));
    var r := SetFieldByName(d, Name(f), v);
    assert r.Some? && Get(r.value, f) == Str(v);
    assert AssignField(d, Name(f), content) == r.value;
  }

  /** The text a field receives when its name matches none of the current
      description, InChI hash and identifier: the value itself, cleaned of
      the advertising paragraph when the field holds adverse effects. */
  lemma AssignStoresVerbatim(d: DrugInfo, f: Field, content: string)
    requires KindOf(f) == Scalar
    requires !Contains(content, NotAvailable)
    requires Name(f) != d.description && Name(f) != d.inChI.hash && Name(f) != d.id
    ensures Get(AssignField(d, Name(f), content), f) == Str(Cleaned(Name(f), content))
  {
    AssignStores(d, f, content);
  }

  /** The identifier is stored as found, not upper-cased, unless the record's
      identifier is already the text "ID". */
  lemma IdentifierVerbatim(d: DrugInfo, content: string)
    requires !Contains(content, NotAvailable)
    requires d.description != "ID" && d.inChI.hash != "ID" && d.id != "ID"
    ensures AssignField(d, "ID", content).id == content
  {
    assert Cleaned(Name(ID), content) == content;
    AssignStoresVerbatim(d, ID, content);
  }

  /** The upper-casing branch for the identifier is reached only when the
      identifier already reads "ID". */
  lemma IdentifierUpperCased(d: DrugInfo, content: string)
    requires !Contains(content, NotAvailable)
    requires d.description != "ID" && d.inChI.hash != "ID" && d.id == "ID"
    ensures AssignField(d, "ID", content).id == ToUpper(content)
  {
    assert Cleaned(Name(ID), content) == content;
    AssignStores(d, ID, content);
  }

  /** A field whose name equals the current description is stored title-cased;
      that comparison is made first, so it wins over the hash and identifier. */
  lemma DescriptionNameTitleCased(d: DrugInfo, f: Field, content: string)
    requires KindOf(f) == Scalar && !Contains(content, NotAvailable)
    requires Name(f) == d.description
    ensures Get(AssignField(d, Name(f), content), f) == Str(ToTitleCase(Cleaned(Name(f), content)))
  {
    AssignStores(d, f, content);
  }

  /** A field whose name equals the current InChI hash, and not the
      description, is stored upper-cased. */
  lemma HashNameUpperCased(d: DrugInfo, f: Field, content: string)
    requires KindOf(f) == Scalar && !Contains(content, NotAvailable)
    requires Name(f) != d.description && Name(f) == d.inChI.hash
    ensures Get(AssignField(d, Name(f), content), f) == Str(ToUpper(Cleaned(Name(f), content)))
  {
    AssignStores(d, f, content);
  }

  /** A name that is no `string` field changes nothing (except `isStub`). */
  lemma AssignNonStringIgnored(d: DrugInfo, name: string, content: string)
    requires name != "isStub"
    requires forall f :: Name(f) == name ==> KindOf(f) != Scalar
    ensures AssignField(d, name, content) == d
  {
  }

  /** `assignField` leaves every `string` field of another name alone. */
  lemma AssignKeepsStrings(d: DrugInfo, name: string, content: string, f: Field)
    requires KindOf(f) == Scalar && Name(f) != name && name != "isStub"
    ensures Get(AssignField(d, name, content), f) == Get(d, f)
  {
  }

  /** No Go name of a field is `isStub`. */
  lemma FieldNameTable(f: Field)
    ensures Name(f) != "isStub"
  {
  }

  /** What the walk does with one entry. */
  datatype Route = Skip | Unnamed | Dispatch(name: string, h: Handler) | Assign(name: string)

  /** The walk's decision for one entry: sentinel values are skipped; the
      `dt` text is normalised and turned into a property name; a name with a
      registered handler goes to it, any other non-empty name to
      `assignField`. */
  function RouteOf(e: Entry): (r: Route)
    ensures r == Skip <==> IsSentinel(e.content)
    ensures r.Dispatch? ==> HandlerFor(r.name) == Some(r.h)
    ensures r.Assign? ==> HandlerFor(r.name).None? && r.name != ""
    ensures r.Dispatch? || r.Assign? ==> r.name == FieldName(Normalize(e.title))
    ensures r == Unnamed <==> !IsSentinel(e.content) && FieldName(Normalize(e.title)) == ""
  {
    if IsSentinel(e.content) then Skip
    else
      var name := FieldName(Normalize(e.title));
      if name == "" then Unnamed
      else match HandlerFor(name)
        case Some(h) => Dispatch(name, h)
        case None => Assign(name)
  }

  /** One entry of the walk; `None` when a handler panics, which ends the
      routine without a record. */
  function Step(d: DrugInfo, e: Entry, fetch: string -> InteractionsReply, anchor: Anchor): (r: Option<DrugInfo>)
    ensures IsSentinel(e.content) ==> r == Some(d)
    ensures RouteOf(e) == Unnamed ==> r == Some(d)
  {
    match RouteOf(e)
    case Skip => Some(d)
    case Unnamed => Some(d)
    case Dispatch(name, h) =>
      (match Apply(h, name, e, d, fetch, anchor)
       case Updated(d') => Some(d')
       case Refused => Some(d)
       case Crashed => None)
    case Assign(name) => Some(AssignField(d, name, e.content))
  }

  /** A non-sentinel entry whose property has a registered handler is
      dispatched to it. */
  lemma RouteDispatch(e: Entry, name: string, h: Handler)
    requires !IsSentinel(e.content) && FieldName(Normalize(e.title)) == name
    requires HandlerFor(name) == Some(h)
    ensures RouteOf(e) == Dispatch(name, h)
  {
  }

  /** The walk's step for a dispatched entry is the handler's effect. */
  lemma StepDispatch(d: DrugInfo, e: Entry, name: string, h: Handler,
                     fetch: string -> InteractionsReply, anchor: Anchor)
    requires !IsSentinel(e.content) && FieldName(Normalize(e.title)) == name
    requires HandlerFor(name) == Some(h)
    ensures Step(d, e, fetch, anchor) ==
            match Apply(h, name, e, d, fetch, anchor)
            case Updated(d') => Some(d')
            case Refused => Some(d)
            case Crashed => None
  {
    RouteDispatch(e, name, h);
  }

  /** An entry labelled with a registered list property (synonyms,
      categories, groups) appends its trimmed items to that list. */
  lemma StepAppendsItems(d: DrugInfo, e: Entry, f: Field, fetch: string -> InteractionsReply, anchor: Anchor)
    requires f == Synonyms || f == Categories || f == Groups
    requires !IsSentinel(e.content) && FieldName(Normalize(e.title)) == Name(f)
    ensures Step(d, e, fetch, anchor) == Some(SetList(d, f, GetList(d, f) + TrimAll(e.items)))
  {
    assert HandlerFor(Name(f)) == Some(HandleListAsArray);
    StepDispatch(d, e, Name(f), HandleListAsArray, fetch, anchor);
    ApplyListAsArray(f, e, d, fetch, anchor);
  }

  /** The description entry stores its text, sentence-cased. */
  lemma StepDescription(d: DrugInfo, e: Entry, f: Field, fetch: string -> InteractionsReply, anchor: Anchor)
    requires f == Description
    requires !IsSentinel(e.content) && FieldName(Normalize(e.title)) == Name(f)
    ensures Step(d, e, fetch, anchor) == Some(d.(description := ToSentenceCase(e.content)))
  {
    assert HandlerFor(Name(f)) == Some(HandleDescription);
    StepDispatch(d, e, Name(f), HandleDescription, fetch, anchor);
    ApplyDescription(f, e, d, fetch, anchor);
  }

  /** The weight entry appends the average and monoisotopic weights when
      its text has four tokens, and changes nothing otherwise. */
  lemma StepWeight(d: DrugInfo, e: Entry, f: Field, fetch: string -> InteractionsReply, anchor: Anchor)
    requires f == Weight
    requires !IsSentinel(e.content) && FieldName(Normalize(e.title)) == Name(f)
    ensures var ts := WeightTokens(e);
            Step(d, e, fetch, anchor) ==
            if |ts| == 4 then Some(d.(weight := d.weight + [MolWeight("average", ts[1], "Da"),
                                                          MolWeight("monoisotopic", ts[3], "Da")]))
            else Some(d)
  {
    assert HandlerFor(Name(f)) == Some(HandleMolecularWeight);
    StepDispatch(d, e, Name(f), HandleMolecularWeight, fetch, anchor);
    ApplyMolecularWeight(f, e, d, fetch, anchor);
  }

  /** The InChI key entry sets the hash and the InChI entry the identifier,
      each keeping the other half. */
  lemma StepInChI(d: DrugInfo, e: Entry, name: string, fetch: string -> InteractionsReply, anchor: Anchor)
    requires name == "InchiKey" || name == "Inchi"
    requires !IsSentinel(e.content) && FieldName(Normalize(e.title)) == name
    ensures Step(d, e, fetch, anchor) ==
            if name == "InchiKey" then Some(d.(inChI := InChiData(e.content, d.inChI.id)))
            else Some(d.(inChI := InChiData(d.inChI.hash, e.content)))
  {
    ApplyInChI(name, e, d, fetch, anchor);
    StepDispatch(d, e, name, HandleInChIHashAndID, fetch, anchor);
  }

  /** The mechanism-of-action entry replaces the record's rows by its
      table's, one map per row. */
  lemma StepMechanismOfAction(d: DrugInfo, e: Entry, name: string, fetch: string -> InteractionsReply, anchor: Anchor)
    requires name == "MechanismOfAction"
    requires !IsSentinel(e.content) && FieldName(Normalize(e.title)) == name
    ensures Step(d, e, fetch, anchor).Some?
    ensures var d' := Step(d, e, fetch, anchor).value;
            && d' == d.(moa := d'.moa)
            && |d'.moa| == |e.rows|
            && forall i :: 0 <= i < |e.rows| ==> d'.moa[i] == MoaRow(e.rows[i])
  {
    ApplyMechanismOfAction(name, e, d, fetch, anchor);
    StepDispatch(d, e, name, HandleMechanismOfAction, fetch, anchor);
  }

  /** The interactions entry: the routine ends when a decoded row is
      unreadable; a failed or undecodable fetch leaves the record as it was;
      otherwise the parsed interactions and the page list are stored. */
  lemma StepInteractions(d: DrugInfo, e: Entry, f: Field, fetch: string -> InteractionsReply, anchor: Anchor)
    requires f == DrugInteractions
    requires !IsSentinel(e.content) && FieldName(Normalize(e.title)) == Name(f)
    ensures Step(d, e, fetch, anchor).None? <==>
            fetch(d.id).Decoded? && ParseRows(fetch(d.id).rows, anchor).None?
    ensures !fetch(d.id).Decoded? ==> Step(d, e, fetch, anchor) == Some(d)
    ensures fetch(d.id).Decoded? && ParseRows(fetch(d.id).rows, anchor).Some? ==>
            Step(d, e, fetch, anchor) ==
            Some(d.(drugInteractions := ParseRows(fetch(d.id).rows, anchor).value,
                    drugInteractionsPage := ["", e.tableInfo, fetch(d.id).page]))
  {
    ApplyDrugInteractions(f, e, d, fetch, anchor);
    StepDispatch(d, e, Name(f), HandleDrugInteractions, fetch, anchor);
  }

  /** An entry whose property is an unhandled `string` field goes through
      `assignField`: that field receives what `AssignStores` says, and no
      other field changes. */
  lemma StepAssigns(d: DrugInfo, e: Entry, f: Field, fetch: string -> InteractionsReply, anchor: Anchor)
    requires KindOf(f) == Scalar && HandlerFor(Name(f)).None?
    requires !IsSentinel(e.content) && FieldName(Normalize(e.title)) == Name(f)
    ensures Step(d, e, fetch, anchor).Some?
    ensures forall g :: g != f ==> Get(Step(d, e, fetch, anchor).value, g) == Get(d, g)
    ensures Contains(e.content, NotAvailable) ==> Step(d, e, fetch, anchor) == Some(d)
    ensures !Contains(e.content, NotAvailable) ==>
            Get(Step(d, e, fetch, anchor).value, f) == Str(Stored(d, Name(f), Cleaned(Name(f), e.content)))
  {
    var r := AssignField(d, Name(f), e.content);
    assert Step(d, e, fetch, anchor) == Some(r);
    FieldNameTable(f);
    forall g | g != f ensures Get(r, g) == Get(d, g) {
      if Get(r, g) != Get(d, g) { NameInjective(f, g); }
    }
    if !Contains(e.content, NotAvailable) {
      AssignStores(d, f, e.content);
    }
  }

  /** A label that names the `Link` field overwrites the link the record
      was started with, as for any other unhandled `string` field. */
  lemma LinkLabelOverwrites(d: DrugInfo, e: Entry, f: Field, fetch: string -> InteractionsReply, anchor: Anchor)
    requires f == Link
    requires !IsSentinel(e.content) && FieldName(Normalize(e.title)) == Name(f)
    requires !Contains(e.content, NotAvailable)
    requires d.description != Name(f) && d.inChI.hash != Name(f) && d.id != Name(f)
    ensures Step(d, e, fetch, anchor).Some? && Step(d, e, fetch, anchor).value.link == e.content
  {
    LinkStoredVerbatim(d, f, e.content);
    UnhandledLink(f);
    StepAssigns(d, e, f, fetch, anchor);
  }

  /** The link text is stored as found unless the record's description,
      hash or identifier reads "Link". */
  lemma LinkStoredVerbatim(d: DrugInfo, f: Field, content: string)
    requires f == Link
    requires d.description != Name(f) && d.inChI.hash != Name(f) && d.id != Name(f)
    ensures Stored(d, Name(f), Cleaned(Name(f), content)) == content
  {
  }

  /** An unhandled property that names no `string` field changes nothing. */
  lemma StepUnassignable(d: DrugInfo, e: Entry, fetch: string -> InteractionsReply, anchor: Anchor)
    requires RouteOf(e).Assign?
    requires forall f :: Name(f) == RouteOf(e).name ==> KindOf(f) != Scalar
    ensures Step(d, e, fetch, anchor) == Some(d)
  {
    FieldNameNeverIsStub(Normalize(e.title));
    AssignNonStringIgnored(d, RouteOf(e).name, e.content);
  }

  /** Only the interactions handler panics. */
  lemma StepCrashes(d: DrugInfo, e: Entry, fetch: string -> InteractionsReply, anchor: Anchor)
    ensures Step(d, e, fetch, anchor).None? ==> RouteOf(e).Dispatch? && RouteOf(e).h == HandleDrugInteractions
  {
  }

  /** No entry changes the stub flag: the handlers leave it alone, and no
      property name is `isStub`. */
  lemma StepKeepsStub(d: DrugInfo, e: Entry, fetch: string -> InteractionsReply, anchor: Anchor)
    ensures Step(d, e, fetch, anchor).Some? ==> Step(d, e, fetch, anchor).value.isStub == d.isStub
  {
    match RouteOf(e)
    case Skip =>
    case Unnamed =>
    case Dispatch(name, h) =>
      if Apply(h, name, e, d, fetch, anchor).Updated? {
        HandlersKeepStub(h, name, e, d, fetch, anchor);
      }
    case Assign(name) =>
      FieldNameNeverIsStub(Normalize(e.title));
  }

  /** An entry changes no `string` field other than the one its label
      names: handlers write only their own property, and `assignField`
      only the field it is given. */
  lemma StepKeepsStrings(d: DrugInfo, e: Entry, f: Field, fetch: string -> InteractionsReply, anchor: Anchor)
    requires KindOf(f) == Scalar && FieldName(Normalize(e.title)) != Name(f)
    ensures Step(d, e, fetch, anchor).Some? ==> Get(Step(d, e, fetch, anchor).value, f) == Get(d, f)
  {
    var route := RouteOf(e);
    if route.Dispatch? {
      DispatchKeepsStrings(d, e, f, fetch, anchor);
    } else if route.Assign? {
      FieldNameNeverIsStub(Normalize(e.title));
      AssignRouteKeepsStrings(d, e, f, fetch, anchor);
    }
  }

  /** A dispatched entry keeps every `string` field of another name. */
  lemma DispatchKeepsStrings(d: DrugInfo, e: Entry, f: Field, fetch: string -> InteractionsReply, anchor: Anchor)
    requires RouteOf(e).Dispatch? && KindOf(f) == Scalar && Name(f) != RouteOf(e).name
    ensures Step(d, e, fetch, anchor).Some? ==> Get(Step(d, e, fetch, anchor).value, f) == Get(d, f)
  {
    ApplyKeepsStrings(RouteOf(e).h, RouteOf(e).name, e, d, fetch, anchor, f);
  }

  /** An entry sent to `assignField` keeps every `string` field of another
      name. */
  lemma AssignRouteKeepsStrings(d: DrugInfo, e: Entry, f: Field, fetch: string -> InteractionsReply, anchor: Anchor)
    requires RouteOf(e).Assign? && RouteOf(e).name != "isStub"
    requires KindOf(f) == Scalar && Name(f) != RouteOf(e).name
    ensures Step(d, e, fetch, anchor).Some? ==> Get(Step(d, e, fetch, anchor).value, f) == Get(d, f)
  {
    AssignKeepsStrings(d, RouteOf(e).name, e.content, f);
  }

  /** The walk over a page's entries, in document order. */
  function Walk(d: DrugInfo, es: seq<Entry>, fetch: string -> InteractionsReply, anchor: Anchor): Option<DrugInfo>
    decreases |es|
  {
    if es == [] then Some(d)
    else match Step(d, es[0], fetch, anchor)
      case None => None
      case Some(d') => Walk(d', es[1..], fetch, anchor)
  }

  /** The walk keeps the stub flag it started with. */
  lemma {:induction false} WalkKeepsStub(d: DrugInfo, es: seq<Entry>,
                                         fetch: string -> InteractionsReply, anchor: Anchor)
    ensures Walk(d, es, fetch, anchor).Some? ==> Walk(d, es, fetch, anchor).value.isStub == d.isStub
    decreases |es|
  {
    if es != [] && Step(d, es[0], fetch, anchor).Some? {
      StepKeepsStub(d, es[0], fetch, anchor);
      WalkKeepsStub(Step(d, es[0], fetch, anchor).value, es[1..], fetch, anchor);
    }
  }

  /** A `string` field that no entry's label names keeps its value through
      the walk. */
  lemma {:induction false} WalkKeepsStrings(d: DrugInfo, es: seq<Entry>, f: Field,
                                            fetch: string -> InteractionsReply, anchor: Anchor)
    requires KindOf(f) == Scalar
    requires forall i :: 0 <= i < |es| ==> FieldName(Normalize(es[i].title)) != Name(f)
    ensures Walk(d, es, fetch, anchor).Some? ==> Get(Walk(d, es, fetch, anchor).value, f) == Get(d, f)
    decreases |es|
  {
    if es != [] && Step(d, es[0], fetch, anchor).Some? {
      StepKeepsStrings(d, es[0], f, fetch, anchor);
      WalkKeepsStrings(Step(d, es[0], fetch, anchor).value, es[1..], f, fetch, anchor);
    }
  }

  /** The link survives a walk whose labels never name the `Link` field. */
  lemma WalkKeepsLink(d: DrugInfo, es: seq<Entry>, f: Field, fetch: string -> InteractionsReply, anchor: Anchor)
    requires f == Link
    requires forall i :: 0 <= i < |es| ==> FieldName(Normalize(es[i].title)) != Name(f)
    ensures Walk(d, es, fetch, anchor).Some? ==> Walk(d, es, fetch, anchor).value.link == d.link
  {
    WalkKeepsStrings(d, es, f, fetch, anchor);
  }

  /** The walk over two stretches of entries is the walk over the first
      followed by the walk over the second. */
  lemma {:induction false} WalkAppend(d: DrugInfo, a: seq<Entry>, b: seq<Entry>,
                                      fetch: string -> InteractionsReply, anchor: Anchor)
    ensures Walk(d, a + b, fetch, anchor) ==
            match Walk(d, a, fetch, anchor)
            case None => None
            case Some(d') => Walk(d', b, fetch, anchor)
    decreases |a|
  {
    if a == [] {
      assert a + b == b;
    } else {
      assert (a + b)[0] == a[0] && (a + b)[1..] == a[1..] + b;
      match Step(d, a[0], fetch, anchor)
      case None =>
      case Some(d') => WalkAppend(d', a[1..], b, fetch, anchor);
    }
  }

  /** Entries that all hold sentinels leave the record as it was. */
  lemma {:induction false} SentinelsIgnored(d: DrugInfo, es: seq<Entry>,
                                            fetch: string -> InteractionsReply, anchor: Anchor)
    requires forall i :: 0 <= i < |es| ==> IsSentinel(es[i].content)
    ensures Walk(d, es, fetch, anchor) == Some(d)
    decreases |es|
  {
    if es != [] {
      SentinelsIgnored(d, es[1..], fetch, anchor);
    }
  }

  /** A drug page: the text of the stub notice and the `dt`/`dd` entries. */
  datatype Document = Document(stubNotice: string, entries: seq<Entry>)

  /** Whether a page is a stub: its notice, normalised, is the stub text. */
  predicate IsStubPage(doc: Document)
  {
    Normalize(doc.stubNotice) == Normalize(StubNoticeText)
  }

  /** `scrapePageRoutine`: no record when the page cannot be fetched or a
      handler panics; otherwise the walk over the page, starting from an empty
      record that carries the link and the stub flag. The record keeps the
      link unless some entry's label itself names the `Link` field. */
  function ScrapePage(link: DrugLink, page: Option<Document>,
                      fetch: string -> InteractionsReply, anchor: Anchor): (r: Option<DrugInfo>)
    ensures r.Some? ==> page.Some? && (r.value.isStub <==> IsStubPage(page.value))
    ensures r.Some? && (forall i :: 0 <= i < |page.value.entries| ==>
                          FieldName(Normalize(page.value.entries[i].title)) != Name(Link)) ==>
            r.value.link == link.link
  {
    match page
    case None => None
    case Some(doc) =>
      var start := Blank.(link := link.link, isStub := IsStubPage(doc));
      var r := Walk(start, doc.entries, fetch, anchor);
      assert r.Some? ==> r.value.isStub == start.isStub by {
        WalkKeepsStub(start, doc.entries, fetch, anchor);
      }
      assert r.Some? && (forall i :: 0 <= i < |doc.entries| ==>
                           FieldName(Normalize(doc.entries[i].title)) != Name(Link)) ==>
             r.value.link == link.link by {
        if forall i :: 0 <= i < |doc.entries| ==> FieldName(Normalize(doc.entries[i].title)) != Name(Link) {
          WalkKeepsLink(start, doc.entries, Link, fetch, anchor);
        }
      }
      r
  }

  /** One more entry at the end is one more step of the walk. */
  lemma WalkSnoc(d: DrugInfo, es: seq<Entry>, e: Entry, fetch: string -> InteractionsReply, anchor: Anchor)
    ensures Walk(d, es + [e], fetch, anchor) ==
            match Walk(d, es, fetch, anchor)
            case None => None
            case Some(d') => Step(d', e, fetch, anchor)
  {
    WalkAppend(d, es, [e], fetch, anchor);
    match Walk(d, es, fetch, anchor)
    case None =>
    case Some(d') =>
      assert [e][1..] == [];
  }

  /** The walk `scrapePageRoutine` performs on a fetched page. */
  lemma ScrapePageWalks(link: DrugLink, doc: Document, fetch: string -> InteractionsReply, anchor: Anchor)
    ensures ScrapePage(link, Some(doc), fetch, anchor) ==
            Walk(Blank.(link := link.link, isStub := IsStubPage(doc)), doc.entries, fetch, anchor)
  {
  }

  /** One more entry at the end of a page is one more step of the walk on
      the record the shorter page gives. */
  lemma ScrapePageSnoc(link: DrugLink, notice: string, es: seq<Entry>, e: Entry,
                       fetch: string -> InteractionsReply, anchor: Anchor)
    ensures ScrapePage(link, Some(Document(notice, es + [e])), fetch, anchor) ==
            match ScrapePage(link, Some(Document(notice, es)), fetch, anchor)
            case None => None
            case Some(d) => Step(d, e, fetch, anchor)
  {
    var start := Blank.(link := link.link, isStub := IsStubPage(Document(notice, es)));
    ScrapePageWalks(link, Document(notice, es + [e]), fetch, anchor);
    ScrapePageWalks(link, Document(notice, es), fetch, anchor);
    WalkSnoc(start, es, e, fetch, anchor);
  }

  /** A page whose every entry is a sentinel gives the empty record with
      the link and the stub flag. */
  lemma EmptyPage(link: DrugLink, doc: Document, fetch: string -> InteractionsReply, anchor: Anchor)
    requires forall i :: 0 <= i < |doc.entries| ==> IsSentinel(doc.entries[i].content)
    ensures ScrapePage(link, Some(doc), fetch, anchor) == Some(Blank.(link := link.link, isStub := IsStubPage(doc)))
  {
    SentinelsIgnored(Blank.(link := link.link, isStub := IsStubPage(doc)), doc.entries, fetch, anchor);
  }
}
