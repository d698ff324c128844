/** The `DrugInfo` record of main.go and a static table of its fields, which
    stands in for the reflection the scraper uses (`ExtractFieldsOfType`,
    `setFieldByName`, `reflect.TypeOf(..).NumField()`). */
module Drug {
  import opened Wrappers

  datatype InChiData = InChiData(hash: string, id: string)

  /** One molecular weight; `weight` is the token `strconv.ParseFloat` reads,
      left uninterpreted. */
  datatype MolWeight = MolWeight(kind: string, weight: string, units: string)

  datatype DrugLink = DrugLink(name: string, link: string)

  datatype DrugInfo = DrugInfo(
    smiles: string,
    id: string,
    molecule: string,
    cas: string,
    iupacName: string,
    background: string,
    inChI: InChiData,
    inChIKey: string,
    summary: string,
    weight: seq<MolWeight>,
    formula: string,
    description: string,
    categories: seq<string>,
    link: string,
    drugType: string,
    groups: seq<string>,
    synonyms: seq<string>,
    indication: string,
    isStub: bool,
    pharmacodynamics: string,
    moa: seq<map<string, string>>,
    adverseEffects: string,
    drugInteractions: seq<seq<string>>,
    drugInteractionsPage: seq<string>,
    halfLife: string,
    routeOfElimination: string,
    toxicity: string,
    clearance: string,
    absorption: string)

  /** The struct fields of `DrugInfo`, in declaration order. */
  datatype Field =
    | Smiles | ID | Molecule | CAS | IupacName | Background | InChI | InChIKey
    | Summary | Weight | Formula | Description | Categories | Link | Type | Groups
    | Synonyms | Indication | IsStub | Pharmacodynamics | Moa | AdverseEffects
    | DrugInteractions | DrugInteractionsPage | HalfLife | RouteOfElimination
    | Toxicity | Clearance | Absorption

  const AllFields: seq<Field> :=
    [Smiles, ID, Molecule, CAS, IupacName, Background, InChI, InChIKey,
     Summary, Weight, Formula, Description, Categories, Link, Type, Groups,
     Synonyms, Indication, IsStub, Pharmacodynamics, Moa, AdverseEffects,
     DrugInteractions, DrugInteractionsPage, HalfLife, RouteOfElimination,
     Toxicity, Clearance, Absorption]

  /** `reflect.TypeOf(DrugInfo{}).NumField()`. */
  const NumField: nat := |AllFields|

  lemma AllFieldsListed(f: Field)
    ensures f in AllFields
  {
  }

  /** The Go type of a field, as far as the scraper distinguishes them:
      `string`, `[]string`, or anything else. */
  datatype Kind = Scalar | List | Composite

  function KindOf(f: Field): Kind
  {
    match f
    case Categories | Groups | Synonyms | DrugInteractionsPage => List
    case InChI | Weight | IsStub | Moa | DrugInteractions => Composite
    case _ => Scalar
  }

  /** The Go name of a field. */
  function Name(f: Field): string
  {
    match f
    case Smiles => "Smiles"
    case ID => "ID"
    case Molecule => "Molecule"
    case CAS => "CAS"
    case IupacName => "IupacName"
    case Background => "Background"
    case InChI => "InChI"
    case InChIKey => "InChIKey"
    case Summary => "Summary"
    case Weight => "Weight"
    case Formula => "Formula"
    case Description => "Description"
    case Categories => "Categories"
    case Link => "Link"
    case Type => "Type"
    case Groups => "Groups"
    case Synonyms => "Synonyms"
    case Indication => "Indication"
    case IsStub => "IsStub"
    case Pharmacodynamics => "Pharmacodynamics"
    case Moa => "Moa"
    case AdverseEffects => "AdverseEffects"
    case DrugInteractions => "DrugInteractions"
    case DrugInteractionsPage => "DrugInteractionsPage"
    case HalfLife => "HalfLife"
    case RouteOfElimination => "RouteOfElimination"
    case Toxicity => "Toxicity"
    case Clearance => "Clearance"
    case Absorption => "Absorption"
  }

  /** The field a name's length and first letter identify; no two names
      share both. */
  function FieldOfKey(len: int, first: char): Option<Field>
  {
    match (len, first)
    case (6, 'S') => Some(Smiles)
    case (2, 'I') => Some(ID)
    case (8, 'M') => Some(Molecule)
    case (3, 'C') => Some(CAS)
    case (9, 'I') => Some(IupacName)
    case (10, 'B') => Some(Background)
    case (5, 'I') => Some(InChI)
    case (8, 'I') => Some(InChIKey)
    case (7, 'S') => Some(Summary)
    case (6, 'W') => Some(Weight)
    case (7, 'F') => Some(Formula)
    case (11, 'D') => Some(Description)
    case (10, 'C') => Some(Categories)
    case (4, 'L') => Some(Link)
    case (4, 'T') => Some(Type)
    case (6, 'G') => Some(Groups)
    case (8, 'S') => Some(Synonyms)
    case (10, 'I') => Some(Indication)
    case (6, 'I') => Some(IsStub)
    case (16, 'P') => Some(Pharmacodynamics)
    case (3, 'M') => Some(Moa)
    case (14, 'A') => Some(AdverseEffects)
    case (16, 'D') => Some(DrugInteractions)
    case (20, 'D') => Some(DrugInteractionsPage)
    case (8, 'H') => Some(HalfLife)
    case (18, 'R') => Some(RouteOfElimination)
    case (8, 'T') => Some(Toxicity)
    case (9, 'C') => Some(Clearance)
    case (10, 'A') => Some(Absorption)
    case _ => None
  }

  lemma KeyIdentifies(f: Field)
    ensures |Name(f)| > 0 && FieldOfKey(|Name(f)|, Name(f)[0]) == Some(f)
  {
    match f
    case Smiles => {} case ID => {} case Molecule => {} case CAS => {}
    case IupacName => {} case Background => {} case InChI => {} case InChIKey => {}
    case Summary => {} case Weight => {} case Formula => {} case Description => {}
    case Categories => {} case Link => {} case Type => {} case Groups => {}
    case Synonyms => {} case Indication => {} case IsStub => {} case Pharmacodynamics => {}
    case Moa => {} case AdverseEffects => {} case DrugInteractions => {}
    case DrugInteractionsPage => {} case HalfLife => {} case RouteOfElimination => {}
    case Toxicity => {} case Clearance => {} case Absorption => {}
  }

  /** Distinct fields have distinct Go names. */
  lemma NameInjective(f: Field, g: Field)
    requires Name(f) == Name(g)
    ensures f == g
  {
    KeyIdentifies(f);
    KeyIdentifies(g);
  }

  /** The first of `fields` whose Go name is `name`. */
  function Lookup(fields: seq<Field>, name: string): (r: Option<Field>)
    ensures r.Some? ==> Name(r.value) == name && r.value in fields
    ensures r.None? ==> forall i :: 0 <= i < |fields| ==> Name(fields[i]) != name
  {
    if fields == [] then None
    else if Name(fields[0]) == name then Some(fields[0])
    else Lookup(fields[1..], name)
  }

  /** `reflect.Value.FieldByName`: the field with exactly this Go name, if
      `DrugInfo` has one. */
  function FieldByName(name: string): (r: Option<Field>)
    ensures r.Some? ==> Name(r.value) == name
    ensures r.None? ==> forall f :: Name(f) != name
  {
    var r := Lookup(AllFields, name);
    if r.None? then
      assert forall f :: Name(f) != name by {
        forall f ensures Name(f) != name {
          AllFieldsListed(f);
        }
      }
      r
    else r
  }

  /** Looking a field up by its own name finds it. */
  lemma FieldByNameOfName(f: Field)
    ensures FieldByName(Name(f)) == Some(f)
  {
    var r := FieldByName(Name(f));
    NameInjective(r.value, f);
  }

  /** The value held in one field, tagged with its Go type. */
  datatype Value =
    | Str(s: string)
    | Strs(l: seq<string>)
    | InChIValue(inChI: InChiData)
    | Weights(weights: seq<MolWeight>)
    | Flag(b: bool)
    | MoaRows(rows: seq<map<string, string>>)
    | Interactions(triples: seq<seq<string>>)

  /** Reads one field; the tag agrees with the field's kind. */
  function Get(d: DrugInfo, f: Field): (v: Value)
    ensures KindOf(f) == Scalar <==> v.Str?
    ensures KindOf(f) == List <==> v.Strs?
  {
    match f
    case Smiles => Str(d.smiles)
    case ID => Str(d.id)
    case Molecule => Str(d.molecule)
    case CAS => Str(d.cas)
    case IupacName => Str(d.iupacName)
    case Background => Str(d.background)
    case InChI => InChIValue(d.inChI)
    case InChIKey => Str(d.inChIKey)
    case Summary => Str(d.summary)
    case Weight => Weights(d.weight)
    case Formula => Str(d.formula)
    case Description => Str(d.description)
    case Categories => Strs(d.categories)
    case Link => Str(d.link)
    case Type => Str(d.drugType)
    case Groups => Strs(d.groups)
    case Synonyms => Strs(d.synonyms)
    case Indication => Str(d.indication)
    case IsStub => Flag(d.isStub)
    case Pharmacodynamics => Str(d.pharmacodynamics)
    case Moa => MoaRows(d.moa)
    case AdverseEffects => Str(d.adverseEffects)
    case DrugInteractions => Interactions(d.drugInteractions)
    case DrugInteractionsPage => Strs(d.drugInteractionsPage)
    case HalfLife => Str(d.halfLife)
    case RouteOfElimination => Str(d.routeOfElimination)
    case Toxicity => Str(d.toxicity)
    case Clearance => Str(d.clearance)
    case Absorption => Str(d.absorption)
  }

  /** The text of a `string` field. */
  function GetString(d: DrugInfo, f: Field): string
    requires KindOf(f) == Scalar
  {
    Get(d, f).s
  }

  /** The items of a `[]string` field. */
  function GetList(d: DrugInfo, f: Field): seq<string>
    requires KindOf(f) == List
  {
    Get(d, f).l
  }

  /** Stores text in a `string` field; every other field keeps its value. */
  function SetString(d: DrugInfo, f: Field, v: string): (r: DrugInfo)
    requires KindOf(f) == Scalar
    ensures Get(r, f) == Str(v)
    ensures forall g :: g != f ==> Get(r, g) == Get(d, g)
    ensures r.isStub == d.isStub
  {
    match f
    case Smiles => d.(smiles := v)
    case ID => d.(id := v)
    case Molecule => d.(molecule := v)
    case CAS => d.(cas := v)
    case IupacName => d.(iupacName := v)
    case Background => d.(background := v)
    case InChIKey => d.(inChIKey := v)
    case Summary => d.(summary := v)
    case Formula => d.(formula := v)
    case Description => d.(description := v)
    case Link => d.(link := v)
    case Type => d.(drugType := v)
    case Indication => d.(indication := v)
    case Pharmacodynamics => d.(pharmacodynamics := v)
    case AdverseEffects => d.(adverseEffects := v)
    case HalfLife => d.(halfLife := v)
    case RouteOfElimination => d.(routeOfElimination := v)
    case Toxicity => d.(toxicity := v)
    case Clearance => d.(clearance := v)
    case Absorption => d.(absorption := v)
  }

  /** Stores items in a `[]string` field; every other field keeps its value. */
  function SetList(d: DrugInfo, f: Field, v: seq<string>): (r: DrugInfo)
    requires KindOf(f) == List
    ensures Get(r, f) == Strs(v)
    ensures forall g :: g != f ==> Get(r, g) == Get(d, g)
    ensures r.isStub == d.isStub
  {
    match f
    case Categories => d.(categories := v)
    case Groups => d.(groups := v)
    case Synonyms => d.(synonyms := v)
    case DrugInteractionsPage => d.(drugInteractionsPage := v)
  }

  /** A second store into a list field overwrites the first. */
  lemma SetListTwice(d: DrugInfo, f: Field, a: seq<string>, b: seq<string>)
    requires KindOf(f) == List
    ensures SetList(SetList(d, f, a), f, b) == SetList(d, f, b)
  {
  }

  /** The zero value `DrugInfo{}`. */
  const Blank: DrugInfo :=
    DrugInfo("", "", "", "", "", "", InChiData("", ""), "", "", [], "", "", [], "",
             "", [], [], "", false, "", [], "", [], [], "", "", "", "", "")
}
