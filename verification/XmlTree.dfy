/** The descriptor tree of xmlmap.cpp: its names are unique, so that every file of it can be read by the flat maps. */
module XmlTree {
  import opened Wrappers
  import opened XmlFormat

  function A(name: string, key: string, required: bool): Attribute { Attribute(name, key, required) }

  function Leaf(name: string, key: string, required: bool, b64: bool): Element {
    Element(name, Some(key), required, b64, [], [])
  }

  function Group(name: string, required: bool, kids: seq<Element>, attributes: seq<Attribute>): Element {
    Element(name, None, required, false, kids, attributes)
  }

  function IdentityAttributes(): seq<Attribute> {
    [A("nationalnumber", "national_number", true), A("dateofbirth", "date_of_birth", true), A("gender", "gender", true),
     A("noblecondition", "nobility", false), A("specialstatus", "special_status", false),
     A("duplicate", "duplicata", false), A("memberoffamily", "member_of_family", false)]
  }

  function IdentityElements(): seq<Element> {
    [Leaf("name", "surname", true, false), Leaf("firstname", "firstnames", true, false),
     Leaf("middlenames", "first_letter_of_third_given_name", false, false),
     Leaf("nationality", "nationality", true, false), Leaf("placeofbirth", "location_of_birth", true, false),
     Leaf("photo", "PHOTO_FILE", true, true)]
  }

  function WorkPermitAttributes(): seq<Attribute> {
    [A("mention", "work_permit_mention", true), A("vat1", "employer_vat_1", false), A("vat2", "employer_vat_2", false),
     A("regionalfile", "regional_file_number", false)]
  }

  function BrexitAttributes(): seq<Attribute> {
    [A("mention1", "brexit_mention_1", true), A("mention2", "brexit_mention_2", false)]
  }

  function Brexit(): Element { Group("brexit", false, [], BrexitAttributes()) }

  function CardAAttributes(): seq<Attribute> {
    [A("mentions1", "cardA_mention_1", true), A("mentions2", "cardA_mention_2", false)]
  }

  function CardElements(): seq<Element> {
    [Leaf("deliverymunicipality", "issuing_municipality", true, false),
     Leaf("protection_date_country", "date_and_country_of_protection", false, false),
     Group("workpermit", false, [], WorkPermitAttributes()),
     Brexit(),
     Group("cardA", false, [], CardAAttributes())]
  }

  function CardAttributes(): seq<Attribute> {
    [A("documenttype", "document_type", true), A("carddata_appl_version", "carddata_appl_version", false),
     A("cardnumber", "card_number", true), A("chipnumber", "chip_number", true),
     A("validitydatebegin", "validity_begin_date", true), A("validitydateend", "validity_end_date", true)]
  }

  function AddressElements(): seq<Element> {
    [Leaf("streetandnumber", "address_street_and_number", true, false), Leaf("zip", "address_zip", true, false),
     Leaf("municipality", "address_municipality", true, false)]
  }

  function CertificateElements(): seq<Element> {
    [Leaf("root", "Root", true, true), Leaf("citizenca", "CA", true, true),
     Leaf("authentication", "Authentication", false, true), Leaf("signing", "Signature", false, true),
     Leaf("rrn", "CERT_RN_FILE", true, true)]
  }

  function EidElements(): seq<Element> {
    [Group("identity", true, IdentityElements(), IdentityAttributes()), Group("card", true, CardElements(), CardAttributes()),
     Group("address", true, AddressElements(), []), Group("certificates", true, CertificateElements(), [])]
  }

  function EidAttributes(): seq<Attribute> {
    [A("version", "xml_file_version", false), A("graphpersoversion", "tokeninfo_graph_perso_version", false)]
  }

  function TopLevel(): seq<Element> { [Group("eid", true, EidElements(), EidAttributes())] }

  // ---- No two names are the same: the place of each in the tree can be told from its length and a character

  function ElementPlace(s: string): int {
    match |s|
    case 3 => if s[0] == 'e' then 0 else if s[0] == 'z' then 16 else 23
    case 4 => if s[0] == 'n' then 2 else if s[0] == 'c' then 8 else 19
    case 5 => if s[0] == 'p' then 7 else 13
    case 6 => 12
    case 7 => if s[0] == 'a' then 14 else 22
    case 8 => 1
    case 9 => if s[0] == 'f' then 3 else 20
    case 10 => 11
    case 11 => if s[0] == 'm' then 4 else 5
    case 12 => if s[0] == 'p' then 6 else if s[0] == 'm' then 17 else 18
    case 14 => 21
    case 15 => 15
    case 20 => 9
    case 23 => 10
    case _ => -1
  }

  function AttributePlace(s: string): int {
    match |s|
    case 4 => if s[3] == '1' then 8 else 9
    case 6 => 2
    case 7 => if s[0] == 'm' then 7 else 21
    case 8 => if s[7] == '1' then 11 else 12
    case 9 => if s[0] == 'd' then 5 else if s[8] == '1' then 13 else 14
    case 10 => if s[1] == 'a' then 17 else 18
    case 11 => 1
    case 12 => if s[0] == 'r' then 10 else 15
    case 13 => 4
    case 14 => if s[1] == 'a' then 0 else if s[1] == 'o' then 3 else 6
    case 15 => 20
    case 17 => if s[0] == 'v' then 19 else 22
    case 21 => 16
    case _ => -1
  }

  predicate ElementsAt(es: seq<Element>, place: int) {
    forall i | 0 <= i < |es| :: ElementPlace(es[i].name) == place + i
  }

  predicate AttributesAt(as_: seq<Attribute>, place: int) {
    forall i | 0 <= i < |as_| :: AttributePlace(as_[i].name) == place + i
  }

  lemma AllCons(e: Element, rest: seq<Element>)
    ensures AllElements([e] + rest) == [e] + AllElements(e.kids) + AllElements(rest)
    ensures AllAttributes([e] + rest) == AllAttributes(e.kids) + e.attributes + AllAttributes(rest)
  {
    assert ([e] + rest)[0] == e && ([e] + rest)[1..] == rest;
  }

  lemma {:induction false} AllFlat(es: seq<Element>)
    requires forall e <- es :: e.kids == []
    ensures AllElements(es) == es
    decreases |es|
  {
    if es != [] {
      assert es[0] in es;
      AllFlat(es[1..]);
    }
  }

  lemma {:induction false} NoAttributes(es: seq<Element>)
    requires forall e <- es :: e.kids == [] && e.attributes == []
    ensures AllAttributes(es) == []
    decreases |es|
  {
    if es != [] {
      assert es[0] in es;
      NoAttributes(es[1..]);
    }
  }

  lemma AllOfEid()
    ensures AllElements(EidElements()) ==
            ([EidElements()[0]] + IdentityElements()) + ([EidElements()[1]] + CardElements())
            + ([EidElements()[2]] + AddressElements()) + ([EidElements()[3]] + CertificateElements())
    ensures AllAttributes(EidElements()) == IdentityAttributes() + (AllAttributes(CardElements()) + CardAttributes())
  {
    hide AllElements, AllAttributes, IdentityElements, CardElements, AddressElements, CertificateElements,
         IdentityAttributes, CardAttributes;
    var es := EidElements();
    Flat();
    AllCons(es[0], [es[1], es[2], es[3]]);
    AllCons(es[1], [es[2], es[3]]);
    AllCons(es[2], [es[3]]);
    AllCons(es[3], []);
    Nothing();
    assert es == [es[0]] + [es[1], es[2], es[3]];
    assert [es[1], es[2], es[3]] == [es[1]] + [es[2], es[3]];
    assert [es[2], es[3]] == [es[2]] + [es[3]];
    assert [es[3]] == [es[3]] + [];
  }

  lemma Nothing()
    ensures AllElements([]) == [] && AllAttributes([]) == []
  {
  }

  lemma Flat()
    ensures AllElements(IdentityElements()) == IdentityElements() && AllAttributes(IdentityElements()) == []
    ensures AllElements(CardElements()) == CardElements()
    ensures AllElements(AddressElements()) == AddressElements() && AllAttributes(AddressElements()) == []
    ensures AllElements(CertificateElements()) == CertificateElements() && AllAttributes(CertificateElements()) == []
  {
    hide AllElements, AllAttributes;
    AllFlat(IdentityElements());
    AllFlat(CardElements());
    AllFlat(AddressElements());
    AllFlat(CertificateElements());
    NoAttributes(IdentityElements());
    NoAttributes(AddressElements());
    NoAttributes(CertificateElements());
  }

  lemma AllOfCard()
    ensures AllAttributes(CardElements()) == WorkPermitAttributes() + BrexitAttributes() + CardAAttributes()
  {
    hide AllElements, AllAttributes, WorkPermitAttributes, BrexitAttributes, CardAAttributes;
    var es := CardElements();
    AllCons(es[0], [es[1], es[2], es[3], es[4]]);
    AllCons(es[1], [es[2], es[3], es[4]]);
    AllCons(es[2], [es[3], es[4]]);
    AllCons(es[3], [es[4]]);
    AllCons(es[4], []);
    Nothing();
    assert es == [es[0]] + [es[1], es[2], es[3], es[4]];
    assert [es[1], es[2], es[3], es[4]] == [es[1]] + [es[2], es[3], es[4]];
    assert [es[2], es[3], es[4]] == [es[2]] + [es[3], es[4]];
    assert [es[3], es[4]] == [es[3]] + [es[4]];
    assert [es[4]] == [es[4]] + [];
  }

  lemma IdentityGroup()
    ensures ElementsAt(TopLevel(), 0) && ElementsAt([EidElements()[0]] + IdentityElements(), 1)
  {
  }

  lemma CardGroup()
    ensures ElementsAt([EidElements()[1]] + CardElements(), 8)
  {
  }

  lemma AddressGroup()
    ensures ElementsAt([EidElements()[2]] + AddressElements(), 14)
  {
  }

  lemma CertificatesGroup()
    ensures ElementsAt([EidElements()[3]] + CertificateElements(), 18)
  {
  }

  lemma IdentityAttributeGroup()
    ensures AttributesAt(IdentityAttributes(), 0)
  {
  }

  lemma MentionAttributeGroups()
    ensures AttributesAt(WorkPermitAttributes(), 7) && AttributesAt(BrexitAttributes(), 11) && AttributesAt(CardAAttributes(), 13)
  {
  }

  lemma CardAttributeGroup()
    ensures AttributesAt(CardAttributes(), 15)
  {
  }

  lemma EidAttributeGroup()
    ensures AttributesAt(EidAttributes(), 21)
  {
  }

  // The maps of the shipped tree lose no descriptor.
  lemma ShippedNamesUnique()
    ensures UniqueNames(TopLevel()) && Height(TopLevel()) <= MaxDepth
  {
    hide TopLevel, AllElements, AllAttributes, ElementPlace, AttributePlace, Height;
    var es, as_ := AllElements(TopLevel()), AllAttributes(TopLevel());
    ShippedPlaces();
    ShippedHeight();
    forall i, j | 0 <= i < j < |es| ensures es[i].name != es[j].name {
      assert ElementPlace(es[i].name) == i && ElementPlace(es[j].name) == j;
    }
    forall i, j | 0 <= i < j < |as_| ensures as_[i].name != as_[j].name {
      assert AttributePlace(as_[i].name) == i && AttributePlace(as_[j].name) == j;
    }
  }

  lemma ShippedPlaces()
    ensures ElementsAt(AllElements(TopLevel()), 0) && AttributesAt(AllAttributes(TopLevel()), 0)
  {
    hide AllElements, AllAttributes, ElementPlace, AttributePlace, IdentityElements, AddressElements, CertificateElements, CardElements,
         IdentityAttributes, CardAttributes, WorkPermitAttributes, BrexitAttributes, CardAAttributes, EidAttributes, EidElements;
    AllOfEid();
    AllOfCard();
    IdentityGroup();
    CardGroup();
    AddressGroup();
    CertificatesGroup();
    IdentityAttributeGroup();
    MentionAttributeGroups();
    CardAttributeGroup();
    EidAttributeGroup();
    Sizes();
    AllCons(TopLevel()[0], []);
    Nothing();
    assert TopLevel() == [TopLevel()[0]] + [];
  }

  lemma Sizes()
    ensures |IdentityElements()| == 6 && |CardElements()| == 5 && |AddressElements()| == 3 && |CertificateElements()| == 5
    ensures |IdentityAttributes()| == 7 && |WorkPermitAttributes()| == 4 && |BrexitAttributes()| == 2
    ensures |CardAAttributes()| == 2 && |CardAttributes()| == 6 && |EidAttributes()| == 2 && |EidElements()| == 4
  {
  }

  lemma {:induction false} HeightFlat(es: seq<Element>)
    requires forall e <- es :: e.kids == []
    ensures Height(es) <= 1
    decreases |es|
  {
    if es != [] {
      assert es[0] in es;
      HeightFlat(es[1..]);
    }
  }

  lemma {:induction false} HeightAbove(es: seq<Element>, n: nat)
    requires forall e <- es :: Height(e.kids) <= n
    ensures Height(es) <= n + 1
    decreases |es|
  {
    if es != [] {
      assert es[0] in es;
      HeightAbove(es[1..], n);
    }
  }

  lemma ShippedHeight()
    ensures Height(TopLevel()) <= 3
  {
    hide Height, EidElements;
    EidHeight();
    HeightAbove(TopLevel(), 2);
  }

  lemma EidHeight()
    ensures Height(EidElements()) <= 2
  {
    hide Height, IdentityElements, CardElements, AddressElements, CertificateElements, IdentityAttributes, CardAttributes;
    Flat();
    FlatKids();
    HeightFlat(IdentityElements());
    HeightFlat(CardElements());
    HeightFlat(AddressElements());
    HeightFlat(CertificateElements());
    HeightAbove(EidElements(), 1);
  }

  lemma FlatKids()
    ensures forall e <- IdentityElements() :: e.kids == []
    ensures forall e <- CardElements() :: e.kids == []
    ensures forall e <- AddressElements() :: e.kids == []
    ensures forall e <- CertificateElements() :: e.kids == []
  {
  }

  // ---- An error that is forgotten

  // With the second of its two mentions alone, the shipped element comes out empty, and the writer succeeds.
  lemma BrexitTruncated(c: Conversions, cache: Cache)
    requires "brexit_mention_1" !in cache && "brexit_mention_2" in cache
    ensures ElementsOut(c, cache, [Brexit()]) == ([Start("brexit"), End], 0)
  {
    var e := Brexit();
    assert [e][1..] == [];
    assert Missing(cache, e.attributes[0]);
    BrexitWritten(cache);
    AttributesTruncated(c, cache, e, 0);
    assert e.attributes[..0] == [] && AttributesOut(c, cache, []).0 == [] && ElementsOut(c, cache, e.kids) == ([], 0);
    assert [Start("brexit")] + [] + [] + [End] == [Start("brexit"), End];
  }

  lemma BrexitWritten(cache: Cache)
    ensures "brexit_mention_2" in cache ==> !Skipped(cache, Brexit())
  {
    var e := Brexit();
    assert e.attributes[1..] == [A("mention2", "brexit_mention_2", false)] && e.attributes[1..][1..] == [] && [e][1..] == [];
    assert Fields([e]) == AttributeFields(e.attributes) + Fields(e.kids);
    assert AttributeFields(e.attributes)[1].key == "brexit_mention_2";
    assert Fields([e])[1].key == "brexit_mention_2";
  }

  // ---- No label is there twice

  function LabelPlace(s: string): int {
    match |s|
    case 2 => 35
    case 4 => 34
    case 6 => 4
    case 7 => 9
    case 8 => 5
    case 9 => if s[0] == 'd' then 7 else 37
    case 10 => if s[0] == 'f' then 10 else 14
    case 11 => if s[0] == 'n' then 12 else if s[0] == 'a' then 32 else if s[1] == 'a' then 17 else 18
    case 12 => 38
    case 13 => if s[1] == 'a' then 3 else 15
    case 14 => if s[0] == 's' then 6 else if s[0] == 'A' then 36 else if s[13] == '1' then 24 else 25
    case 15 => if s[0] == 'n' then 2 else if s[14] == '1' then 29 else 30
    case 16 => if s[0] == 'x' then 0 else if s[0] == 'm' then 8 else if s[15] == '1' then 27 else 28
    case 17 => if s[0] == 'l' then 13 else 20
    case 19 => if s[0] == 'v' then 19 else 23
    case 20 => if s[0] == 'i' then 21 else if s[0] == 'r' then 26 else 33
    case 21 => 16
    case 25 => 31
    case 29 => 1
    case 30 => 22
    case 32 => 11
    case _ => -1
  }

  predicate FieldsAt(fields: seq<Field>, place: int) {
    forall i | 0 <= i < |fields| :: LabelPlace(fields[i].key) == place + i
  }

  lemma {:induction false} AttributeKeys(attributes: seq<Attribute>)
    ensures |AttributeFields(attributes)| == |attributes|
    ensures forall i | 0 <= i < |attributes| :: AttributeFields(attributes)[i] == FieldOf(attributes[i])
    decreases |attributes|
  {
    if attributes != [] { AttributeKeys(attributes[1..]); }
  }

  lemma {:induction false} LeafKeys(es: seq<Element>)
    requires forall e <- es :: e.key != None
    ensures |Fields(es)| == |es| && forall i | 0 <= i < |es| :: Fields(es)[i].key == es[i].key.value
    decreases |es|
  {
    if es != [] {
      assert es[0] in es;
      LeafKeys(es[1..]);
    }
  }

  lemma FieldsStep(e: Element, rest: seq<Element>)
    ensures e.key == None ==> Fields([e] + rest) == AttributeFields(e.attributes) + Fields(e.kids) + Fields(rest)
  {
    assert ([e] + rest)[0] == e && ([e] + rest)[1..] == rest;
  }

  lemma ShippedLabelsUnique()
    ensures UniqueLabels(Fields(TopLevel()))
  {
    hide Fields, LabelPlace, TopLevel;
    var fields := Fields(TopLevel());
    LabelPlaces();
    forall i, j | 0 <= i < j < |fields| ensures fields[i].key != fields[j].key {
      assert LabelPlace(fields[i].key) == i && LabelPlace(fields[j].key) == j;
    }
  }

  lemma LabelPlaces()
    ensures FieldsAt(Fields(TopLevel()), 0)
  {
    hide Fields, AttributeFields, LabelPlace, IdentityElements, AddressElements, CertificateElements, CardElements,
         IdentityAttributes, CardAttributes, EidAttributes, EidElements;
    var es := EidElements();
    EidIs();
    NoFields();
    assert TopLevel() == [TopLevel()[0]] + [] && es == [es[0]] + [es[1], es[2], es[3]];
    assert [es[1], es[2], es[3]] == [es[1]] + [es[2], es[3]] && [es[2], es[3]] == [es[2]] + [es[3]] && [es[3]] == [es[3]] + [];
    FieldsStep(TopLevel()[0], []);
    FieldsStep(es[0], [es[1], es[2], es[3]]);
    FieldsStep(es[1], [es[2], es[3]]);
    FieldsStep(es[2], [es[3]]);
    FieldsStep(es[3], []);
    EidLabels();
    IdentityLabels();
    CardLabels();
    AddressLabels();
    CertificateLabels();
  }

  lemma EidIs()
    ensures var es := EidElements();
            && |es| == 4 && (forall e <- es :: e.key == None)
            && es[0].attributes == IdentityAttributes() && es[0].kids == IdentityElements()
            && es[1].attributes == CardAttributes() && es[1].kids == CardElements()
            && es[2].attributes == [] && es[2].kids == AddressElements()
            && es[3].attributes == [] && es[3].kids == CertificateElements()
  {
  }

  lemma NoFields()
    ensures Fields([]) == [] && AttributeFields([]) == []
  {
  }

  lemma EidLabels()
    ensures |AttributeFields(EidAttributes())| == 2 && FieldsAt(AttributeFields(EidAttributes()), 0)
  {
    hide AttributeFields;
    AttributeKeys(EidAttributes());
  }

  lemma IdentityLabels()
    ensures |AttributeFields(IdentityAttributes())| == 7 && FieldsAt(AttributeFields(IdentityAttributes()), 2)
    ensures |Fields(IdentityElements())| == 6 && FieldsAt(Fields(IdentityElements()), 9)
  {
    hide AttributeFields, Fields, LabelPlace, IdentityAttributes, IdentityElements;
    AttributeKeys(IdentityAttributes());
    IdentityElementsAre();
    LeafKeys(IdentityElements());
    IdentityPlaces();
  }

  lemma IdentityPlaces()
    ensures var attributes := IdentityAttributes();
            |attributes| == 7 && forall i | 0 <= i < 7 :: LabelPlace(attributes[i].key) == 2 + i
  {
  }

  lemma IdentityElementsAre()
    ensures var es := IdentityElements();
            && |es| == 6 && (forall e <- es :: e.key != None)
            && forall i | 0 <= i < 6 :: LabelPlace(es[i].key.value) == 9 + i
  {
  }

  lemma CardLabels()
    ensures |AttributeFields(CardAttributes())| == 6 && FieldsAt(AttributeFields(CardAttributes()), 15)
    ensures |Fields(CardElements())| == 10 && FieldsAt(Fields(CardElements()), 21)
  {
    hide AttributeFields, Fields, LabelPlace, CardAttributes, CardElements, WorkPermitAttributes, BrexitAttributes, CardAAttributes;
    AttributeKeys(CardAttributes());
    CardPlaces();
    MentionLabels();
    CardElementsAre();
    var es := CardElements();
    NoFields();
    FieldsLeaves(es[0], es[1], es[2..]);
    assert es[2..] == [es[2]] + [es[3], es[4]] && [es[3], es[4]] == [es[3]] + [es[4]] && [es[4]] == [es[4]] + [];
    FieldsStep(es[2], [es[3], es[4]]);
    FieldsStep(es[3], [es[4]]);
    FieldsStep(es[4], []);
    assert es == [es[0]] + ([es[1]] + es[2..]);
  }

  lemma CardPlaces()
    ensures var attributes := CardAttributes();
            |attributes| == 6 && forall i | 0 <= i < 6 :: LabelPlace(attributes[i].key) == 15 + i
  {
  }

  lemma CardElementsAre()
    ensures var es := CardElements();
            && |es| == 5 && es[0].key != None && es[1].key != None
            && LabelPlace(es[0].key.value) == 21 && LabelPlace(es[1].key.value) == 22
            && (forall i | 2 <= i < 5 :: es[i].key == None && es[i].kids == [])
            && es[2].attributes == WorkPermitAttributes() && es[3].attributes == BrexitAttributes()
            && es[4].attributes == CardAAttributes()
  {
    hide WorkPermitAttributes, BrexitAttributes, CardAAttributes;
  }

  lemma FieldsLeaves(a: Element, b: Element, rest: seq<Element>)
    requires a.key != None && b.key != None
    ensures var fields := Fields([a] + ([b] + rest));
            |fields| == 2 + |Fields(rest)| && fields[0].key == a.key.value && fields[1].key == b.key.value && fields[2..] == Fields(rest)
  {
    var all := [a] + ([b] + rest);
    assert all[0] == a && all[1..] == [b] + rest && ([b] + rest)[0] == b && ([b] + rest)[1..] == rest;
  }

  lemma MentionLabels()
    ensures |AttributeFields(WorkPermitAttributes())| == 4 && FieldsAt(AttributeFields(WorkPermitAttributes()), 23)
    ensures |AttributeFields(BrexitAttributes())| == 2 && FieldsAt(AttributeFields(BrexitAttributes()), 27)
    ensures |AttributeFields(CardAAttributes())| == 2 && FieldsAt(AttributeFields(CardAAttributes()), 29)
  {
    hide AttributeFields;
    AttributeKeys(WorkPermitAttributes());
    AttributeKeys(BrexitAttributes());
    AttributeKeys(CardAAttributes());
  }

  lemma AddressLabels()
    ensures |Fields(AddressElements())| == 3 && FieldsAt(Fields(AddressElements()), 31)
  {
    hide Fields;
    LeafKeys(AddressElements());
  }

  lemma CertificateLabels()
    ensures |Fields(CertificateElements())| == 5 && FieldsAt(Fields(CertificateElements()), 34)
  {
    hide Fields, LabelPlace, CertificateElements;
    CertificateElementsAre();
    LeafKeys(CertificateElements());
  }

  lemma CertificateElementsAre()
    ensures var es := CertificateElements();
            && |es| == 5 && (forall e <- es :: e.key != None)
            && forall i | 0 <= i < 5 :: LabelPlace(es[i].key.value) == 34 + i
  {
  }

  /**
  The shipped tree: a field that is read back at all has its own value again if and only if its own conversion inverts
  there, whatever the other labels of the cache are.
  */
  lemma ShippedRoundTrip(c: Conversions, cache: Cache, names: seq<string>, f: Field)
    requires LeavesComplete(cache, TopLevel()) && Unhidden(c, cache, TopLevel()) && |names| == MaxDepth + 1
    requires f in Fields(TopLevel()) && Survives(c, cache, f)
    ensures var read := ReadAll(MapsOf(TopLevel()), c, Reader(names, 0, map[]), ElementsOut(c, cache, TopLevel()).0).cache;
            f.key in read && (read[f.key] == cache[f.key] <==> Inverts(c, cache, f))
  {
    hide TopLevel, Survives, ComesBack, UniqueLabels, LeavesComplete, Unhidden, Fields;
    ShippedNamesUnique();
    ShippedLabelsUnique();
    RoundTrip(c, cache, TopLevel(), names);
    var read := ReadAll(MapsOf(TopLevel()), c, Reader(names, 0, map[]), ElementsOut(c, cache, TopLevel()).0).cache;
    OwnValueExactly(c, cache, Fields(TopLevel()), read, f);
  }

  // ---- A conversion that does not invert

  // The letter for a woman on cards of a language; `Other` is none of the viewer's four.
  datatype Language = NL | FR | EN | DE | Other

  function Letter(l: Language): string {
    match l
    case NL => "V"
    case FR => "F"
    case EN => "F"
    case DE => "W"
    case Other => "F"
  }

  // XmlGenderConvertor, which goes both ways and looks at one character.
  function XmlGender(l: Language, s: string): string {
    if s == "" then "unknown"
    else if s[0] == 'M' then "male"
    else if s[0] == 'F' || s[0] == 'V' || s[0] == 'W' then "female"
    else if s[0] == 'm' then "M"
    else if s[0] == 'f' then Letter(l)
    else "unknown"
  }

  // A card's own letter comes back if and only if it is that of the language the viewer is set to: "V" is read back as
  // "F" in English.
  lemma GenderInverts(l: Language, s: string)
    requires s in {"M", "V", "F", "W"}
    ensures XmlGender(l, XmlGender(l, s)) == s <==> s == "M" || s == Letter(l)
  {
  }

  // The same for the value of the label in a cache, with letters as bytes.
  lemma GenderComesBack(c: Conversions, cache: Cache, l: Language, f: Field, s: string)
    requires f == FieldOf(IdentityAttributes()[2]) && s in {"M", "V", "F", "W"} && f.key in cache && cache[f.key] == Octets(s)
    requires c.form(f.key, Octets(s)) == XmlGender(l, s)
    requires forall t: string :: c.back(f.key, t) == Octets(XmlGender(l, t))
    ensures Inverts(c, cache, f) <==> s == "M" || s == Letter(l)
  {
    GenderInverts(l, s);
    assert Octets(XmlGender(l, XmlGender(l, s)))[0] == XmlGender(l, XmlGender(l, s))[0] as int % 256;
    assert Octets(s)[0] == s[0] as int % 256;
  }

  function Octets(s: string): seq<Byte> { seq(|s|, i requires 0 <= i < |s| => s[i] as int % 256) }
}
