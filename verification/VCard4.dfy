/**
 The vCard4 codec (XEP-0292): a parser and a printer between XML element trees and
 contact cards (crates/prose-xmpp/src/stanza/vcard4.rs). Attributes play no part in it.
 */
module VCard4 {
  import opened Basics

  datatype Node = Text(text: string) | Child(element: Element)
  datatype Element = Element(name: string, ns: string, nodes: seq<Node>)

  datatype ParseError =
    | Unexpected(expected: string, name: string, ns: string)
    | Missing(parent: string, child: string)

  datatype Name = Name(surname: Option<string>, given: Option<string>, additional: Option<string>)

  datatype Adr = Adr(code: seq<string>, country: seq<string>, ext: seq<string>, locality: seq<string>,
                     pobox: seq<string>, region: seq<string>, street: seq<string>)

  datatype VCard = VCard(adr: seq<Adr>, email: seq<string>, fn: seq<string>, n: seq<Name>, impp: seq<string>,
                         nickname: seq<string>, note: seq<string>, org: seq<string>, role: seq<string>,
                         title: seq<string>, tel: seq<string>, url: seq<string>)

  const NS := "urn:ietf:params:xml:ns:vcard-4.0"
  const EMPTY_NAME := Name(None, None, None)
  const EMPTY_ADR := Adr([], [], [], [], [], [], [])
  const EMPTY_CARD := VCard([], [], [], [], [], [], [], [], [], [], [], [])

  // ---- Element trees ----

  function Kids(nodes: seq<Node>): seq<Element> {
    if nodes == [] then []
    else if nodes[0].Child? then [nodes[0].element] + Kids(nodes[1..]) else Kids(nodes[1..])
  }

  /** The text directly inside an element. */
  function TextOf(nodes: seq<Node>): string {
    if nodes == [] then ""
    else if nodes[0].Text? then nodes[0].text + TextOf(nodes[1..]) else TextOf(nodes[1..])
  }

  /** The text of the first child with that name in the vCard namespace. */
  function ChildText(kids: seq<Element>, name: string): Option<string> {
    if kids == [] then None
    else if kids[0].name == name && kids[0].ns == NS then Some(TextOf(kids[0].nodes))
    else ChildText(kids[1..], name)
  }

  function ChildValue(e: Element, name: string): Result<string, ParseError> {
    var text := ChildText(Kids(e.nodes), name);
    if text.Some? then Ok(text.value) else Err(Missing(e.name, name))
  }

  // ---- Names ----

  function AddToName(n: Name, e: Element): Name {
    if e.name == "surname" then n.(surname := Some(TextOf(e.nodes)))
    else if e.name == "given" then n.(given := Some(TextOf(e.nodes)))
    else if e.name == "additional" then n.(additional := Some(TextOf(e.nodes)))
    else n
  }

  function NameFrom(es: seq<Element>): Name {
    if es == [] then EMPTY_NAME else AddToName(NameFrom(es[..|es| - 1]), es[|es| - 1])
  }

  function ReadName(e: Element): Result<Name, ParseError> {
    if e.name != "n" || e.ns != NS then Err(Unexpected("n", e.name, e.ns)) else Ok(NameFrom(Kids(e.nodes)))
  }

  function Leaf(name: string, text: string): Element { Element(name, NS, [Text(text)]) }

  function Maybe(name: string, text: Option<string>): seq<Node> {
    if text.Some? then [Child(Leaf(name, text.value))] else []
  }

  function PrintName(n: Name): Element {
    Element("n", NS, Maybe("given", n.given) + Maybe("surname", n.surname) + Maybe("additional", n.additional))
  }

  // ---- Addresses ----

  datatype Part = Code | Country | Ext | Locality | Pobox | Region | Street

  function PartNamed(name: string): Option<Part> {
    if name == "code" then Some(Code)
    else if name == "country" then Some(Country)
    else if name == "ext" then Some(Ext)
    else if name == "locality" then Some(Locality)
    else if name == "pobox" then Some(Pobox)
    else if name == "region" then Some(Region)
    else if name == "street" then Some(Street)
    else None
  }

  function PartName(p: Part): (name: string)
    ensures PartNamed(name) == Some(p)
  {
    match p
    case Code => "code"
    case Country => "country"
    case Ext => "ext"
    case Locality => "locality"
    case Pobox => "pobox"
    case Region => "region"
    case Street => "street"
  }

  function ExtendAdr(a: Adr, p: Part, texts: seq<string>): Adr {
    match p
    case Code => a.(code := a.code + texts)
    case Country => a.(country := a.country + texts)
    case Ext => a.(ext := a.ext + texts)
    case Locality => a.(locality := a.locality + texts)
    case Pobox => a.(pobox := a.pobox + texts)
    case Region => a.(region := a.region + texts)
    case Street => a.(street := a.street + texts)
  }

  function AddToAdr(a: Adr, e: Element): Adr {
    var part := PartNamed(e.name);
    if part.Some? then ExtendAdr(a, part.value, [TextOf(e.nodes)]) else a
  }

  function AdrFrom(es: seq<Element>): Adr {
    if es == [] then EMPTY_ADR else AddToAdr(AdrFrom(es[..|es| - 1]), es[|es| - 1])
  }

  function ReadAdr(e: Element): Adr { AdrFrom(Kids(e.nodes)) }

  function Leaves(p: Part, texts: seq<string>): seq<Element> {
    seq(|texts|, i requires 0 <= i < |texts| => Leaf(PartName(p), texts[i]))
  }

  function PartOf(a: Adr, p: Part): seq<string> {
    match p
    case Code => a.code
    case Country => a.country
    case Ext => a.ext
    case Locality => a.locality
    case Pobox => a.pobox
    case Region => a.region
    case Street => a.street
  }

  const PART_ORDER := [Code, Country, Ext, Locality, Pobox, Region, Street]

  function AdrLeaves(a: Adr, parts: seq<Part>): seq<Element> {
    if parts == [] then []
    else
      var last := parts[|parts| - 1];
      AdrLeaves(a, parts[..|parts| - 1]) + Leaves(last, PartOf(a, last))
  }

  function Nodes(es: seq<Element>): seq<Node> { seq(|es|, i requires 0 <= i < |es| => Child(es[i])) }

  function PrintAdr(a: Adr): Element { Element("adr", NS, Nodes(AdrLeaves(a, PART_ORDER))) }

  // ---- Cards ----

  /** The fields whose values are plain strings. */
  datatype Field = Email | Fn | Impp | Nickname | Note | Org | Role | Title | Tel | Url

  datatype Property = Address(adr: Adr) | FullName(name: Name) | Plain(field: Field, value: string)

  function FieldNamed(name: string): Option<Field> {
    if name == "fn" then Some(Fn)
    else if name == "nickname" then Some(Nickname)
    else if name == "email" then Some(Email)
    else if name == "impp" then Some(Impp)
    else if name == "note" then Some(Note)
    else if name == "url" then Some(Url)
    else if name == "title" then Some(Title)
    else if name == "tel" then Some(Tel)
    else if name == "org" then Some(Org)
    else if name == "role" then Some(Role)
    else None
  }

  function FieldName(f: Field): (name: string)
    ensures FieldNamed(name) == Some(f) && name != "n" && name != "adr"
  {
    match f
    case Email => "email"
    case Fn => "fn"
    case Impp => "impp"
    case Nickname => "nickname"
    case Note => "note"
    case Org => "org"
    case Role => "role"
    case Title => "title"
    case Tel => "tel"
    case Url => "url"
  }

  function StripTel(uri: string): string { if "tel:" <= uri then uri[4..] else uri }

  function ReadField(f: Field, e: Element): Result<string, ParseError> {
    if f.Tel? then
      var text, uri := ChildValue(e, "text"), ChildValue(e, "uri");
      if text.Ok? then text else if uri.Ok? then Ok(StripTel(uri.value)) else uri
    else if f.Impp? || f.Url? then ChildValue(e, "uri")
    else ChildValue(e, "text")
  }

  /** The property a child of the root stands for; `None` if its name is unknown. */
  function Read(e: Element): Result<Option<Property>, ParseError> {
    var field := FieldNamed(e.name);
    if e.name == "n" then
      var name := ReadName(e);
      if name.Ok? then Ok(Some(FullName(name.value))) else Err(name.error)
    else if e.name == "adr" then Ok(Some(Address(ReadAdr(e))))
    else if field.None? then Ok(None)
    else
      var value := ReadField(field.value, e);
      if value.Ok? then Ok(Some(Plain(field.value, value.value))) else Err(value.error)
  }

  function Extend(v: VCard, f: Field, xs: seq<string>): VCard {
    match f
    case Email => v.(email := v.email + xs)
    case Fn => v.(fn := v.fn + xs)
    case Impp => v.(impp := v.impp + xs)
    case Nickname => v.(nickname := v.nickname + xs)
    case Note => v.(note := v.note + xs)
    case Org => v.(org := v.org + xs)
    case Role => v.(role := v.role + xs)
    case Title => v.(title := v.title + xs)
    case Tel => v.(tel := v.tel + xs)
    case Url => v.(url := v.url + xs)
  }

  function Add(v: VCard, p: Property): VCard {
    match p
    case Address(adr) => v.(adr := v.adr + [adr])
    case FullName(name) => v.(n := v.n + [name])
    case Plain(f, x) => Extend(v, f, [x])
  }

  /** The cards read off the children one by one; the first child that cannot be read ends it. */
  function CardFrom(es: seq<Element>): Result<VCard, ParseError> {
    if es == [] then Ok(EMPTY_CARD)
    else
      var before := CardFrom(es[..|es| - 1]);
      if before.Err? then before
      else
        var read := Read(es[|es| - 1]);
        if read.Err? then Err(read.error)
        else Ok(if read.value.Some? then Add(before.value, read.value.value) else before.value)
  }

  function Parse(root: Element): Result<VCard, ParseError> {
    if root.name != "vcard" || root.ns != NS then Err(Unexpected("vcard", root.name, root.ns))
    else CardFrom(Kids(root.nodes))
  }

  function ValueName(f: Field): string { if f.Impp? || f.Url? then "uri" else "text" }

  function PrintPlain(f: Field, x: string): Element { Element(FieldName(f), NS, [Child(Leaf(ValueName(f), x))]) }

  function PrintProperty(p: Property): Element {
    match p
    case Address(adr) => PrintAdr(adr)
    case FullName(name) => PrintName(name)
    case Plain(f, x) => PrintPlain(f, x)
  }

  function FieldOf(v: VCard, f: Field): seq<string> {
    match f
    case Email => v.email
    case Fn => v.fn
    case Impp => v.impp
    case Nickname => v.nickname
    case Note => v.note
    case Org => v.org
    case Role => v.role
    case Title => v.title
    case Tel => v.tel
    case Url => v.url
  }

  datatype Slot = Adrs | Names | Of(field: Field)

  function Plains(f: Field, xs: seq<string>): seq<Property> {
    seq(|xs|, i requires 0 <= i < |xs| => Plain(f, xs[i]))
  }

  function Addresses(xs: seq<Adr>): seq<Property> { seq(|xs|, i requires 0 <= i < |xs| => Address(xs[i])) }
  function FullNames(xs: seq<Name>): seq<Property> { seq(|xs|, i requires 0 <= i < |xs| => FullName(xs[i])) }

  function Block(v: VCard, slot: Slot): seq<Property> {
    match slot
    case Adrs => Addresses(v.adr)
    case Names => FullNames(v.n)
    case Of(f) => Plains(f, FieldOf(v, f))
  }

  const PRINT_ORDER := [Adrs, Of(Email), Of(Fn), Names, Of(Impp), Of(Nickname), Of(Note), Of(Org), Of(Role), Of(Title),
                       Of(Tel), Of(Url)]

  /** The properties of a card in the order they are printed. */
  function Listed(v: VCard, slots: seq<Slot>): seq<Property> {
    if slots == [] then [] else Listed(v, slots[..|slots| - 1]) + Block(v, slots[|slots| - 1])
  }

  function PrintAll(ps: seq<Property>): seq<Element> {
    seq(|ps|, i requires 0 <= i < |ps| => PrintProperty(ps[i]))
  }

  function PrintInOrder(v: VCard, order: seq<Slot>): Element { Element("vcard", NS, Nodes(PrintAll(Listed(v, order)))) }

  function Print(v: VCard): Element { PrintInOrder(v, PRINT_ORDER) }

  // ---- The parsers as loops ----

  method ParseName(root: Element) returns (r: Result<Name, ParseError>)
    ensures r == ReadName(root)
  {
    if root.name != "n" || root.ns != NS { return Err(Unexpected("n", root.name, root.ns)); }
    var name, kids, i := EMPTY_NAME, Kids(root.nodes), 0;
    while i < |kids|
      invariant 0 <= i <= |kids|
      invariant name == NameFrom(kids[..i])
    {
      var child := kids[i];
      assert kids[..i + 1][..i] == kids[..i];
      if child.name == "surname" { name := name.(surname := Some(TextOf(child.nodes))); }
      else if child.name == "given" { name := name.(given := Some(TextOf(child.nodes))); }
      else if child.name == "additional" { name := name.(additional := Some(TextOf(child.nodes))); }
      i := i + 1;
    }
    assert kids[..|kids|] == kids;
    return Ok(name);
  }

  method ParseAdr(root: Element) returns (adr: Adr)
    ensures adr == ReadAdr(root)
  {
    adr := EMPTY_ADR;
    var kids, i := Kids(root.nodes), 0;
    while i < |kids|
      invariant 0 <= i <= |kids|
      invariant adr == AdrFrom(kids[..i])
    {
      var child := kids[i];
      assert kids[..i + 1][..i] == kids[..i];
      var part := PartNamed(child.name);
      if part.Some? { adr := ExtendAdr(adr, part.value, [TextOf(child.nodes)]); }
      i := i + 1;
    }
    assert kids[..|kids|] == kids;
  }

  method ParseProperty(child: Element) returns (r: Result<Option<Property>, ParseError>)
    ensures r == Read(child)
  {
    if child.name == "n" {
      var name := ParseName(child);
      return if name.Ok? then Ok(Some(FullName(name.value))) else Err(name.error);
    } else if child.name == "adr" {
      var adr := ParseAdr(child);
      return Ok(Some(Address(adr)));
    } else {
      var field := FieldNamed(child.name);
      if field.None? { return Ok(None); }
      var value := ReadField(field.value, child);
      return if value.Ok? then Ok(Some(Plain(field.value, value.value))) else Err(value.error);
    }
  }

  method ParseVCard(root: Element) returns (r: Result<VCard, ParseError>)
    ensures r == Parse(root)
  {
    if root.name != "vcard" || root.ns != NS { return Err(Unexpected("vcard", root.name, root.ns)); }
    var vcard, kids, i := EMPTY_CARD, Kids(root.nodes), 0;
    while i < |kids|
      invariant 0 <= i <= |kids|
      invariant CardFrom(kids[..i]) == Ok(vcard)
    {
      assert kids[..i + 1][..i] == kids[..i];
      var read := ParseProperty(kids[i]);
      if read.Err? {
        FailureStays(kids, i);
        return Err(read.error);
      }
      if read.value.Some? { vcard := Add(vcard, read.value.value); }
      i := i + 1;
    }
    assert kids[..|kids|] == kids;
    return Ok(vcard);
  }

  /** The first unreadable child decides the outcome, whatever follows it. */
  lemma {:induction false} FailureStays(es: seq<Element>, k: nat)
    requires k < |es| && CardFrom(es[..k]).Ok? && Read(es[k]).Err?
    ensures CardFrom(es) == Err(Read(es[k]).error)
    decreases |es|
  {
    var front := es[..|es| - 1];
    if k < |front| {
      assert front[..k] == es[..k];
      FailureStays(front, k);
    } else {
      assert front == es[..k];
    }
  }

  // ---- What a parsed card contains ----

  /** The properties the readable children stand for, in order. */
  function Properties(es: seq<Element>): seq<Property> {
    if es == [] then []
    else
      var read := Read(es[|es| - 1]);
      Properties(es[..|es| - 1]) + if read.Ok? && read.value.Some? then [read.value.value] else []
  }

  function Values(ps: seq<Property>, f: Field): seq<string> {
    if ps == [] then []
    else
      var p := ps[|ps| - 1];
      Values(ps[..|ps| - 1], f) + if p.Plain? && p.field == f then [p.value] else []
  }

  function AdrsOf(ps: seq<Property>): seq<Adr> {
    if ps == [] then []
    else AdrsOf(ps[..|ps| - 1]) + if ps[|ps| - 1].Address? then [ps[|ps| - 1].adr] else []
  }

  function NamesOf(ps: seq<Property>): seq<Name> {
    if ps == [] then []
    else NamesOf(ps[..|ps| - 1]) + if ps[|ps| - 1].FullName? then [ps[|ps| - 1].name] else []
  }

  function AddAll(ps: seq<Property>): VCard {
    if ps == [] then EMPTY_CARD else Add(AddAll(ps[..|ps| - 1]), ps[|ps| - 1])
  }

  /** The card whose every field holds its own properties, in order. */
  function Collected(ps: seq<Property>): VCard {
    VCard(AdrsOf(ps), Values(ps, Email), Values(ps, Fn), NamesOf(ps), Values(ps, Impp), Values(ps, Nickname),
          Values(ps, Note), Values(ps, Org), Values(ps, Role), Values(ps, Title), Values(ps, Tel), Values(ps, Url))
  }

  predicate AllRead(es: seq<Element>) { forall i :: 0 <= i < |es| ==> Read(es[i]).Ok? }

  lemma CollectOne(ps: seq<Property>, p: Property)
    ensures Collected(ps + [p]) == Add(Collected(ps), p)
  {
    assert (ps + [p])[..|ps|] == ps;
    var c := Collected(ps);
    assert c.adr + [] == c.adr && c.n + [] == c.n && c.email + [] == c.email && c.fn + [] == c.fn &&
           c.impp + [] == c.impp;
    assert c.nickname + [] == c.nickname && c.note + [] == c.note && c.org + [] == c.org && c.role + [] == c.role;
    assert c.title + [] == c.title && c.tel + [] == c.tel && c.url + [] == c.url;
  }

  lemma {:induction false} AddAllCollects(ps: seq<Property>)
    ensures AddAll(ps) == Collected(ps)
  {
    if ps != [] {
      var front, last := ps[..|ps| - 1], ps[|ps| - 1];
      AddAllCollects(front);
      assert front + [last] == ps;
      CollectOne(front, last);
    }
  }

  lemma {:induction false} ReadableChildrenAreAdded(es: seq<Element>)
    requires AllRead(es)
    ensures CardFrom(es) == Ok(AddAll(Properties(es)))
  {
    if es != [] {
      var front, read := es[..|es| - 1], Read(es[|es| - 1]);
      ReadableChildrenAreAdded(front);
      if read.value.Some? {
        assert Properties(es)[..|Properties(es)| - 1] == Properties(front);
      } else {
        assert Properties(front) + [] == Properties(front);
      }
    }
  }

  lemma {:induction false} FirstUnreadable(es: seq<Element>) returns (k: nat)
    requires !AllRead(es)
    ensures k < |es| && AllRead(es[..k]) && Read(es[k]).Err?
  {
    var front := es[..|es| - 1];
    if AllRead(front) {
      k := |es| - 1;
    } else {
      k := FirstUnreadable(front);
      assert front[..k] == es[..k];
    }
  }

  /**
   Parsing succeeds exactly on a vCard4 root whose children are all readable, and then each
   field of the card holds the values of its own children, complete and in document order;
   otherwise the error is that of the root or of the first unreadable child.
   */
  lemma ParseIsExact(root: Element)
    ensures var kids := Kids(root.nodes);
            if root.name != "vcard" || root.ns != NS then Parse(root) == Err(Unexpected("vcard", root.name, root.ns))
            else if AllRead(kids) then Parse(root) == Ok(Collected(Properties(kids)))
            else exists k | 0 <= k < |kids| ::
              AllRead(kids[..k]) && Read(kids[k]).Err? && Parse(root) == Err(Read(kids[k]).error)
  {
    var kids := Kids(root.nodes);
    if AllRead(kids) {
      ReadableChildrenAreAdded(kids);
      AddAllCollects(Properties(kids));
    } else {
      var k := FirstUnreadable(kids);
      ReadableChildrenAreAdded(kids[..k]);
      FailureStays(kids, k);
    }
  }

  // ---- Round trip ----

  lemma {:induction false} KidsOfNodes(es: seq<Element>)
    ensures Kids(Nodes(es)) == es
  {
    if es != [] {
      KidsOfNodes(es[1..]);
      assert Nodes(es)[1..] == Nodes(es[1..]);
      assert [es[0]] + es[1..] == es;
    }
  }

  lemma LeafHoldsText(name: string, text: string)
    ensures TextOf(Leaf(name, text).nodes) == text
  {
    assert [Text(text)][1..] == [];
    assert text + "" == text;
  }

  lemma MaybeIsRead(n: Name, name: string, text: Option<string>)
    requires name == "given" || name == "surname" || name == "additional"
    ensures Kids(Maybe(name, text)) == if text.Some? then [Leaf(name, text.value)] else []
    ensures text.Some? ==> AddToName(n, Leaf(name, text.value)) ==
                           if name == "given" then n.(given := text)
                           else if name == "surname" then n.(surname := text) else n.(additional := text)
  {
    if text.Some? {
      LeafHoldsText(name, text.value);
      assert Maybe(name, text)[1..] == [];
    }
  }

  lemma WithoutHead<T>(a: seq<T>, b: seq<T>)
    requires a != []
    ensures a + b != [] && (a + b)[0] == a[0] && (a + b)[1..] == a[1..] + b
  {
  }

  lemma {:induction false} KidsAppend(a: seq<Node>, b: seq<Node>)
    ensures Kids(a + b) == Kids(a) + Kids(b)
  {
    if a == [] {
      assert a + b == b;
    } else {
      KidsAppend(a[1..], b);
      WithoutHead(a, b);
      if a[0].Child? { Regroup([a[0].element], Kids(a[1..]), Kids(b)); }
    }
  }

  lemma NamePush(es: seq<Element>, e: Element)
    ensures NameFrom(es + [e]) == AddToName(NameFrom(es), e)
  {
    assert (es + [e])[..|es|] == es;
  }

  lemma MaybeAddsToName(es: seq<Element>, name: string, text: Option<string>)
    requires name == "given" || name == "surname" || name == "additional"
    ensures var n := NameFrom(es);
            NameFrom(es + Kids(Maybe(name, text))) ==
            if text.None? then n
            else if name == "given" then n.(given := text)
            else if name == "surname" then n.(surname := text) else n.(additional := text)
  {
    MaybeIsRead(NameFrom(es), name, text);
    if text.Some? { NamePush(es, Leaf(name, text.value)); } else { assert es + [] == es; }
  }

  lemma NameRoundTrip(n: Name)
    ensures ReadName(PrintName(n)) == Ok(n)
  {
    var a, b, c := Maybe("given", n.given), Maybe("surname", n.surname), Maybe("additional", n.additional);
    KidsAppend(a + b, c);
    KidsAppend(a, b);
    assert [] + Kids(a) == Kids(a);
    MaybeAddsToName([], "given", n.given);
    MaybeAddsToName(Kids(a), "surname", n.surname);
    MaybeAddsToName(Kids(a) + Kids(b), "additional", n.additional);
  }

  lemma ExtendAdrTwice(a: Adr, p: Part, x: seq<string>, y: seq<string>)
    ensures ExtendAdr(ExtendAdr(a, p, x), p, y) == ExtendAdr(a, p, x + y)
    ensures ExtendAdr(a, p, []) == a
  {
    match p
    case Code => assert a.code + x + y == a.code + (x + y);
    case Country => assert a.country + x + y == a.country + (x + y);
    case Ext => assert a.ext + x + y == a.ext + (x + y);
    case Locality => assert a.locality + x + y == a.locality + (x + y);
    case Pobox => assert a.pobox + x + y == a.pobox + (x + y);
    case Region => assert a.region + x + y == a.region + (x + y);
    case Street => assert a.street + x + y == a.street + (x + y);
  }

  lemma AdrPush(es: seq<Element>, e: Element)
    ensures AdrFrom(es + [e]) == AddToAdr(AdrFrom(es), e)
  {
    assert (es + [e])[..|es|] == es;
  }

  lemma LeavesLast(es: seq<Element>, p: Part, texts: seq<string>, text: string)
    ensures es + Leaves(p, texts + [text]) == es + Leaves(p, texts) + [Leaf(PartName(p), text)]
  {
  }

  lemma LeafExtendsAdr(a: Adr, p: Part, text: string)
    ensures AddToAdr(a, Leaf(PartName(p), text)) == ExtendAdr(a, p, [text])
  {
    LeafHoldsText(PartName(p), text);
  }

  /** The lines of one part, printed and read again, extend that part and no other. */
  lemma {:induction false} LeavesExtendAdr(es: seq<Element>, p: Part, texts: seq<string>)
    ensures AdrFrom(es + Leaves(p, texts)) == ExtendAdr(AdrFrom(es), p, texts)
    decreases |texts|
  {
    if texts == [] {
      assert es + Leaves(p, texts) == es;
      ExtendAdrTwice(AdrFrom(es), p, [], []);
    } else {
      var front, last := texts[..|texts| - 1], texts[|texts| - 1];
      LeavesExtendAdr(es, p, front);
      assert front + [last] == texts;
      LeavesLast(es, p, front, last);
      AdrPush(es + Leaves(p, front), Leaf(PartName(p), last));
      LeafExtendsAdr(AdrFrom(es + Leaves(p, front)), p, last);
      ExtendAdrTwice(AdrFrom(es), p, front, [last]);
    }
  }

  lemma PartOfExtended(a: Adr, p: Part, texts: seq<string>, q: Part)
    ensures PartOf(ExtendAdr(a, p, texts), q) == if p == q then PartOf(a, p) + texts else PartOf(a, q)
  {
  }

  lemma PartIsRead(es: seq<Element>, p: Part, texts: seq<string>, q: Part)
    ensures var a := AdrFrom(es);
            PartOf(AdrFrom(es + Leaves(p, texts)), q) == if p == q then PartOf(a, p) + texts else PartOf(a, q)
  {
    LeavesExtendAdr(es, p, texts);
    PartOfExtended(AdrFrom(es), p, texts, q);
  }

  predicate NoRepeats<T(==)>(s: seq<T>) { forall i, j :: 0 <= i < j < |s| ==> s[i] != s[j] }

  lemma LastOfDistinct<T>(s: seq<T>, x: T)
    requires s != [] && NoRepeats(s)
    ensures var front, last := s[..|s| - 1], s[|s| - 1];
            NoRepeats(front) && s == front + [last] && last !in front && (x in s <==> x in front || x == last)
  {
    assert s == s[..|s| - 1] + [s[|s| - 1]];
  }

  lemma PartIsReadAnew(es: seq<Element>, front: seq<Part>, last: Part, a: Adr, p: Part)
    requires last !in front
    requires PartOf(AdrFrom(es), p) == if p in front then PartOf(a, p) else []
    ensures PartOf(AdrFrom(es + Leaves(last, PartOf(a, last))), p) ==
            if p in front || p == last then PartOf(a, p) else []
  {
    PartIsRead(es, last, PartOf(a, last), p);
    assert [] + PartOf(a, last) == PartOf(a, last);
  }

  lemma {:induction false} PrintedPartsAreRead(a: Adr, parts: seq<Part>, p: Part)
    requires NoRepeats(parts)
    ensures PartOf(AdrFrom(AdrLeaves(a, parts)), p) == if p in parts then PartOf(a, p) else []
  {
    if parts == [] {
      assert PartOf(EMPTY_ADR, p) == [];
    } else {
      var front, last := parts[..|parts| - 1], parts[|parts| - 1];
      PrintedPartsAreRead(a, front, p);
      LastOfDistinct(parts, p);
      PartIsReadAnew(AdrLeaves(a, front), front, last, a, p);
    }
  }

  lemma SameParts(a: Adr, b: Adr)
    requires forall p :: PartOf(a, p) == PartOf(b, p)
    ensures a == b
  {
    assert PartOf(a, Code) == PartOf(b, Code) && PartOf(a, Country) == PartOf(b, Country) &&
           PartOf(a, Ext) == PartOf(b, Ext);
    assert PartOf(a, Locality) == PartOf(b, Locality) && PartOf(a, Pobox) == PartOf(b, Pobox);
    assert PartOf(a, Region) == PartOf(b, Region) && PartOf(a, Street) == PartOf(b, Street);
  }

  lemma EveryPartIsPrinted(p: Part)
    ensures p in PART_ORDER
  {
    var i := match p
             case Code => 0 case Country => 1 case Ext => 2 case Locality => 3
             case Pobox => 4 case Region => 5 case Street => 6;
    assert PART_ORDER[i] == p;
  }

  lemma AdrRoundTrip(a: Adr)
    ensures ReadAdr(PrintAdr(a)) == a
  {
    var es := AdrLeaves(a, PART_ORDER);
    KidsOfNodes(es);
    forall p: Part ensures PartOf(AdrFrom(es), p) == PartOf(a, p) {
      EveryPartIsPrinted(p);
      PrintedPartsAreRead(a, PART_ORDER, p);
    }
    SameParts(AdrFrom(es), a);
  }

  lemma PlainRoundTrip(f: Field, x: string)
    ensures ReadField(f, PrintPlain(f, x)) == Ok(x)
  {
    var e := PrintPlain(f, x);
    assert e.nodes[1..] == [];
    assert Kids(e.nodes) == [Leaf(ValueName(f), x)];
    LeafHoldsText(ValueName(f), x);
  }

  /** A telephone number given as an address is read without its scheme, and the same as one given as text. */
  lemma TelephoneIsRead(number: string)
    ensures var uri := Element("tel", NS, [Child(Leaf("uri", "tel:" + number))]);
            var text := Element("tel", NS, [Child(Leaf("text", number))]);
            Read(uri) == Ok(Some(Plain(Tel, number))) == Read(text)
  {
    var uri := "tel:" + number;
    var e := Element("tel", NS, [Child(Leaf("uri", uri))]);
    OneElement(Leaf("uri", uri));
    assert [Leaf("uri", uri)][1..] == [];
    LeafHoldsText("uri", uri);
    assert ChildText(Kids(e.nodes), "text") == None && ChildText(Kids(e.nodes), "uri") == Some(uri);
    assert uri[4..] == number && "tel:" <= uri;
    PropertyRoundTrip(Plain(Tel, number));
  }

  lemma PropertyRoundTrip(p: Property)
    ensures Read(PrintProperty(p)) == Ok(Some(p))
  {
    match p
    case Address(adr) => AdrRoundTrip(adr);
    case FullName(name) => NameRoundTrip(name);
    case Plain(f, x) => PlainRoundTrip(f, x);
  }

  lemma ReadOneMore(es: seq<Element>, e: Element, p: Property)
    requires AllRead(es) && Read(e) == Ok(Some(p))
    ensures AllRead(es + [e]) && Properties(es + [e]) == Properties(es) + [p]
  {
    assert (es + [e])[..|es|] == es;
  }

  lemma PrintOneMore(ps: seq<Property>, p: Property)
    ensures PrintAll(ps + [p]) == PrintAll(ps) + [PrintProperty(p)]
  {
  }

  lemma {:induction false} PrintedAreRead(ps: seq<Property>)
    ensures AllRead(PrintAll(ps)) && Properties(PrintAll(ps)) == ps
  {
    if ps != [] {
      var front, p := ps[..|ps| - 1], ps[|ps| - 1];
      PrintedAreRead(front);
      PropertyRoundTrip(p);
      ReadOneMore(PrintAll(front), PrintProperty(p), p);
      PrintOneMore(front, p);
      assert front + [p] == ps;
    }
  }

  lemma ExtendTwice(v: VCard, f: Field, x: seq<string>, y: seq<string>)
    ensures Extend(Extend(v, f, x), f, y) == Extend(v, f, x + y)
    ensures Extend(v, f, []) == v
  {
    match f
    case Email => assert v.email + x + y == v.email + (x + y);
    case Fn => assert v.fn + x + y == v.fn + (x + y);
    case Impp => assert v.impp + x + y == v.impp + (x + y);
    case Nickname => assert v.nickname + x + y == v.nickname + (x + y);
    case Note => assert v.note + x + y == v.note + (x + y);
    case Org => assert v.org + x + y == v.org + (x + y);
    case Role => assert v.role + x + y == v.role + (x + y);
    case Title => assert v.title + x + y == v.title + (x + y);
    case Tel => assert v.tel + x + y == v.tel + (x + y);
    case Url => assert v.url + x + y == v.url + (x + y);
  }

  lemma AddLast(ps: seq<Property>, p: Property)
    ensures AddAll(ps + [p]) == Add(AddAll(ps), p)
  {
    assert (ps + [p])[..|ps|] == ps;
  }

  lemma PlainsLast(ps: seq<Property>, f: Field, xs: seq<string>, x: string)
    ensures ps + Plains(f, xs + [x]) == ps + Plains(f, xs) + [Plain(f, x)]
  {
  }

  lemma {:induction false} PlainsExtend(ps: seq<Property>, f: Field, xs: seq<string>)
    ensures AddAll(ps + Plains(f, xs)) == Extend(AddAll(ps), f, xs)
    decreases |xs|
  {
    if xs == [] {
      assert ps + Plains(f, xs) == ps;
      ExtendTwice(AddAll(ps), f, [], []);
    } else {
      var front, last := xs[..|xs| - 1], xs[|xs| - 1];
      PlainsExtend(ps, f, front);
      assert front + [last] == xs;
      PlainsLast(ps, f, front, last);
      AddLast(ps + Plains(f, front), Plain(f, last));
      ExtendTwice(AddAll(ps), f, front, [last]);
    }
  }

  lemma AddressesLast(ps: seq<Property>, xs: seq<Adr>, x: Adr)
    ensures ps + Addresses(xs + [x]) == ps + Addresses(xs) + [Address(x)]
  {
  }

  lemma {:induction false} AddressesExtend(ps: seq<Property>, xs: seq<Adr>)
    ensures AddAll(ps + Addresses(xs)) == AddAll(ps).(adr := AddAll(ps).adr + xs)
    decreases |xs|
  {
    if xs == [] {
      assert ps + Addresses(xs) == ps;
      assert AddAll(ps).adr + xs == AddAll(ps).adr;
    } else {
      var front, last := xs[..|xs| - 1], xs[|xs| - 1];
      AddressesExtend(ps, front);
      assert front + [last] == xs;
      AddressesLast(ps, front, last);
      AddLast(ps + Addresses(front), Address(last));
      Regroup(AddAll(ps).adr, front, [last]);
    }
  }

  lemma FullNamesLast(ps: seq<Property>, xs: seq<Name>, x: Name)
    ensures ps + FullNames(xs + [x]) == ps + FullNames(xs) + [FullName(x)]
  {
  }

  lemma {:induction false} FullNamesExtend(ps: seq<Property>, xs: seq<Name>)
    ensures AddAll(ps + FullNames(xs)) == AddAll(ps).(n := AddAll(ps).n + xs)
    decreases |xs|
  {
    if xs == [] {
      assert ps + FullNames(xs) == ps;
      assert AddAll(ps).n + xs == AddAll(ps).n;
    } else {
      var front, last := xs[..|xs| - 1], xs[|xs| - 1];
      FullNamesExtend(ps, front);
      assert front + [last] == xs;
      FullNamesLast(ps, front, last);
      AddLast(ps + FullNames(front), FullName(last));
      Regroup(AddAll(ps).n, front, [last]);
    }
  }

  lemma FieldOfExtended(v: VCard, f: Field, xs: seq<string>, g: Field)
    ensures FieldOf(Extend(v, f, xs), g) == if f == g then FieldOf(v, f) + xs else FieldOf(v, g)
    ensures Extend(v, f, xs).adr == v.adr && Extend(v, f, xs).n == v.n
  {
  }

  /** `w` has the fields of `v` in the given slots, and nothing else. */
  predicate Copied(v: VCard, w: VCard, slots: seq<Slot>) {
    && w.adr == (if Adrs in slots then v.adr else [])
    && w.n == (if Names in slots then v.n else [])
    && forall f :: FieldOf(w, f) == if Of(f) in slots then FieldOf(v, f) else []
  }

  lemma BlockExtends(ps: seq<Property>, v: VCard, slot: Slot)
    ensures var w := AddAll(ps);
            AddAll(ps + Block(v, slot)) ==
            match slot
            case Adrs => w.(adr := w.adr + v.adr)
            case Names => w.(n := w.n + v.n)
            case Of(f) => Extend(w, f, FieldOf(v, f))
  {
    match slot
    case Adrs => AddressesExtend(ps, v.adr);
    case Names => FullNamesExtend(ps, v.n);
    case Of(f) => PlainsExtend(ps, f, FieldOf(v, f));
  }

  lemma FieldCopied(v: VCard, w: VCard, slots: seq<Slot>, f: Field)
    requires Copied(v, w, slots) && Of(f) !in slots
    ensures Copied(v, Extend(w, f, FieldOf(v, f)), slots + [Of(f)])
  {
    var w' := Extend(w, f, FieldOf(v, f));
    FieldOfExtended(w, f, FieldOf(v, f), f);
    assert FieldOf(w, f) == [];
    forall g ensures FieldOf(w', g) == if Of(g) in slots + [Of(f)] then FieldOf(v, g) else [] {
      FieldOfExtended(w, f, FieldOf(v, f), g);
    }
  }

  lemma AdrsCopied(v: VCard, w: VCard, slots: seq<Slot>)
    requires Copied(v, w, slots) && Adrs !in slots
    ensures Copied(v, w.(adr := w.adr + v.adr), slots + [Adrs])
  {
    assert forall f :: FieldOf(w.(adr := w.adr + v.adr), f) == FieldOf(w, f);
  }

  lemma NamesCopied(v: VCard, w: VCard, slots: seq<Slot>)
    requires Copied(v, w, slots) && Names !in slots
    ensures Copied(v, w.(n := w.n + v.n), slots + [Names])
  {
    assert forall f :: FieldOf(w.(n := w.n + v.n), f) == FieldOf(w, f);
  }

  lemma CopiedOneMore(v: VCard, w: VCard, slots: seq<Slot>, slot: Slot)
    requires Copied(v, w, slots) && slot !in slots
    ensures Copied(v, match slot
                      case Adrs => w.(adr := w.adr + v.adr)
                      case Names => w.(n := w.n + v.n)
                      case Of(f) => Extend(w, f, FieldOf(v, f)), slots + [slot])
  {
    match slot
    case Adrs => AdrsCopied(v, w, slots);
    case Names => NamesCopied(v, w, slots);
    case Of(f) => FieldCopied(v, w, slots, f);
  }

  lemma {:induction false} ListedAreCopied(v: VCard, slots: seq<Slot>)
    requires NoRepeats(slots)
    ensures Copied(v, AddAll(Listed(v, slots)), slots)
  {
    if slots == [] {
      assert forall f :: FieldOf(EMPTY_CARD, f) == [];
    } else {
      var front, last := slots[..|slots| - 1], slots[|slots| - 1];
      ListedAreCopied(v, front);
      LastOfDistinct(slots, last);
      BlockExtends(Listed(v, front), v, last);
      CopiedOneMore(v, AddAll(Listed(v, front)), front, last);
    }
  }

  lemma EverySlotIsPrinted(slot: Slot)
    ensures slot in PRINT_ORDER
  {
    var i := match slot
             case Adrs => 0
             case Names => 3
             case Of(f) => match f case Email => 1 case Fn => 2 case Impp => 4 case Nickname => 5 case Note => 6
                                   case Org => 7 case Role => 8 case Title => 9 case Tel => 10 case Url => 11;
    assert PRINT_ORDER[i] == slot;
  }

  lemma SameFields(v: VCard, w: VCard)
    requires v.adr == w.adr && v.n == w.n && forall f :: FieldOf(v, f) == FieldOf(w, f)
    ensures v == w
  {
    assert FieldOf(v, Email) == FieldOf(w, Email) && FieldOf(v, Fn) == FieldOf(w, Fn) &&
           FieldOf(v, Impp) == FieldOf(w, Impp);
    assert FieldOf(v, Nickname) == FieldOf(w, Nickname) && FieldOf(v, Note) == FieldOf(w, Note);
    assert FieldOf(v, Org) == FieldOf(w, Org) && FieldOf(v, Role) == FieldOf(w, Role) &&
           FieldOf(v, Title) == FieldOf(w, Title);
    assert FieldOf(v, Tel) == FieldOf(w, Tel) && FieldOf(v, Url) == FieldOf(w, Url);
  }

  ghost predicate Complete(order: seq<Slot>) { NoRepeats(order) && forall slot :: slot in order }

  lemma CopiedWhole(v: VCard, w: VCard, order: seq<Slot>)
    requires Complete(order) && Copied(v, w, order)
    ensures v == w
  {
    assert Adrs in order && Names in order;
    forall f: Field ensures FieldOf(v, f) == FieldOf(w, f) { assert Of(f) in order; }
    SameFields(v, w);
  }

  lemma RoundTripInOrder(v: VCard, order: seq<Slot>)
    requires Complete(order)
    ensures Parse(PrintInOrder(v, order)) == Ok(v)
  {
    var ps := Listed(v, order);
    KidsOfNodes(PrintAll(ps));
    PrintedAreRead(ps);
    ReadableChildrenAreAdded(PrintAll(ps));
    ListedAreCopied(v, order);
    CopiedWhole(v, AddAll(ps), order);
  }

  lemma PrintOrderIsComplete()
    ensures Complete(PRINT_ORDER)
  {
    forall slot: Slot ensures slot in PRINT_ORDER { EverySlotIsPrinted(slot); }
  }

  /** Every card survives printing and parsing, field by field and in order. */
  lemma RoundTrip(v: VCard)
    ensures Parse(Print(v)) == Ok(v)
  {
    PrintOrderIsComplete();
    RoundTripInOrder(v, PRINT_ORDER);
  }

  /** What a parse kept of any tree is kept by printing it and parsing again. */
  lemma ParsePrintParse(root: Element)
    requires Parse(root).Ok?
    ensures Parse(Print(Parse(root).value)) == Parse(root)
  {
    RoundTrip(Parse(root).value);
  }

  // ---- Children with unknown names ----

  /** The children a parser looks at inside an element with that name; `root` tells the root from its children. */
  predicate KnownIn(root: bool, parent: string, child: Element) {
    if root then
      child.name in {"adr", "email", "fn", "impp", "n", "nickname", "note", "org", "role", "tel", "title", "url"}
    else if parent == "n" then child.name in {"additional", "given", "surname"}
    else if parent == "adr" then child.name in {"code", "country", "ext", "locality", "pobox", "region", "street"}
    else child.ns == NS && child.name in {"text", "uri"}
  }

  /** Three levels down only the text of an element is looked at, and above that only its known children. */
  function Trim(e: Element, level: nat): Element
    decreases level
  {
    if level == 0 then e.(nodes := [Text(TextOf(e.nodes))])
    else e.(nodes := Nodes(TrimKids(Kids(e.nodes), e.name, level)))
  }

  function TrimKids(es: seq<Element>, parent: string, level: nat): seq<Element>
    requires level > 0
    decreases level, |es|
  {
    if es == [] then []
    else
      var e := es[|es| - 1];
      TrimKids(es[..|es| - 1], parent, level) + if KnownIn(level == 2, parent, e) then [Trim(e, level - 1)] else []
  }

  lemma TrimLast(es: seq<Element>, e: Element, parent: string, level: nat)
    requires level > 0
    ensures TrimKids(es + [e], parent, level) ==
            TrimKids(es, parent, level) + if KnownIn(level == 2, parent, e) then [Trim(e, level - 1)] else []
  {
    assert (es + [e])[..|es|] == es;
  }

  lemma TrimmedLeafKeepsText(e: Element)
    ensures Trim(e, 0).name == e.name && Trim(e, 0).ns == e.ns && TextOf(Trim(e, 0).nodes) == TextOf(e.nodes)
  {
    LeafHoldsText(e.name, TextOf(e.nodes));
  }

  lemma {:induction false} TrimmedNameIsSame(es: seq<Element>)
    ensures NameFrom(TrimKids(es, "n", 1)) == NameFrom(es)
  {
    if es != [] {
      var front, e := es[..|es| - 1], es[|es| - 1];
      TrimmedNameIsSame(front);
      var kept := TrimKids(front, "n", 1);
      TrimmedLeafKeepsText(e);
      if KnownIn(false, "n", e) { NamePush(kept, Trim(e, 0)); } else { assert kept + [] == kept; }
    }
  }

  lemma {:induction false} TrimmedAdrIsSame(es: seq<Element>)
    ensures AdrFrom(TrimKids(es, "adr", 1)) == AdrFrom(es)
  {
    if es != [] {
      var front, e := es[..|es| - 1], es[|es| - 1];
      TrimmedAdrIsSame(front);
      var kept := TrimKids(front, "adr", 1);
      TrimmedLeafKeepsText(e);
      if KnownIn(false, "adr", e) { AdrPush(kept, Trim(e, 0)); } else { assert kept + [] == kept; }
    }
  }

  lemma {:induction false} ChildTextPush(es: seq<Element>, e: Element, name: string)
    ensures ChildText(es + [e], name) ==
            if ChildText(es, name).Some? then ChildText(es, name)
            else if e.name == name && e.ns == NS then Some(TextOf(e.nodes)) else None
  {
    if es == [] {
      assert (es + [e])[1..] == [];
    } else {
      assert (es + [e])[1..] == es[1..] + [e];
      ChildTextPush(es[1..], e, name);
    }
  }

  lemma {:induction false} TrimmedTextIsSame(es: seq<Element>, parent: string, name: string)
    requires parent != "n" && parent != "adr" && (name == "text" || name == "uri")
    ensures ChildText(TrimKids(es, parent, 1), name) == ChildText(es, name)
  {
    if es != [] {
      var front, e := es[..|es| - 1], es[|es| - 1];
      TrimmedTextIsSame(front, parent, name);
      assert front + [e] == es;
      ChildTextPush(front, e, name);
      var kept := TrimKids(front, parent, 1);
      TrimmedLeafKeepsText(e);
      if KnownIn(false, parent, e) { ChildTextPush(kept, Trim(e, 0), name); } else { assert kept + [] == kept; }
    }
  }

  lemma TrimmedFieldIsSame(e: Element, f: Field)
    requires e.name != "n" && e.name != "adr"
    ensures ReadField(f, Trim(e, 1)) == ReadField(f, e)
  {
    var kids := Kids(e.nodes);
    KidsOfNodes(TrimKids(kids, e.name, 1));
    TrimmedTextIsSame(kids, e.name, "text");
    TrimmedTextIsSame(kids, e.name, "uri");
  }

  lemma TrimmedReadsSame(e: Element)
    ensures Read(Trim(e, 1)) == Read(e)
  {
    var kids := Kids(e.nodes);
    KidsOfNodes(TrimKids(kids, e.name, 1));
    if e.name == "n" {
      TrimmedNameIsSame(kids);
    } else if e.name == "adr" {
      TrimmedAdrIsSame(kids);
    } else if FieldNamed(e.name).Some? {
      TrimmedFieldIsSame(e, FieldNamed(e.name).value);
    }
  }

  lemma CardPush(es: seq<Element>, e: Element)
    ensures CardFrom(es + [e]) ==
            if CardFrom(es).Err? then CardFrom(es)
            else if Read(e).Err? then Err(Read(e).error)
            else Ok(if Read(e).value.Some? then Add(CardFrom(es).value, Read(e).value.value) else CardFrom(es).value)
  {
    assert (es + [e])[..|es|] == es;
  }

  lemma CardPushSame(a: seq<Element>, b: seq<Element>, e: Element, e': Element)
    requires CardFrom(a) == CardFrom(b) && Read(e) == Read(e')
    ensures CardFrom(a + [e]) == CardFrom(b + [e'])
  {
    CardPush(a, e);
    CardPush(b, e');
  }

  lemma UnknownAddsNothing(es: seq<Element>, e: Element)
    requires !KnownIn(true, "vcard", e)
    ensures CardFrom(es + [e]) == CardFrom(es)
  {
    CardPush(es, e);
  }

  lemma {:induction false} TrimmedCardIsSame(es: seq<Element>)
    ensures CardFrom(TrimKids(es, "vcard", 2)) == CardFrom(es)
  {
    if es != [] {
      var front, e := es[..|es| - 1], es[|es| - 1];
      TrimmedCardIsSame(front);
      var kept := TrimKids(front, "vcard", 2);
      assert front + [e] == es;
      TrimLast(front, e, "vcard", 2);
      if KnownIn(true, "vcard", e) {
        TrimmedReadsSame(e);
        CardPushSame(kept, front, Trim(e, 1), e);
      } else {
        UnknownAddsNothing(front, e);
        assert kept + [] == kept;
      }
    }
  }

  /** The parser sees of a tree only its trimmed form, errors included. */
  lemma ParseSeesTrimmed(root: Element)
    ensures Parse(Trim(root, 2)) == Parse(root)
  {
    KidsOfNodes(TrimKids(Kids(root.nodes), root.name, 2));
    if root.name == "vcard" { TrimmedCardIsSame(Kids(root.nodes)); }
  }

  /** `b` is `a` with one element put in, at any depth, that no parser knows there. */
  ghost predicate Inserted(a: Element, b: Element, level: nat)
    decreases level, 1
  {
    && a.name == b.name && a.ns == b.ns
    && ((exists i, x :: InsertedAt(a, b, level, i, x)) || exists i :: InsertedBelow(a, b, level, i))
  }

  ghost predicate InsertedAt(a: Element, b: Element, level: nat, i: nat, x: Element) {
    && i <= |a.nodes| && b.nodes == a.nodes[..i] + [Child(x)] + a.nodes[i..]
    && (level > 0 ==> !KnownIn(level == 2, a.name, x))
  }

  /** Inside the child at `i`; in the children of a text element anything may change. */
  ghost predicate InsertedBelow(a: Element, b: Element, level: nat, i: nat)
    decreases level, 0
  {
    && i < |a.nodes| == |b.nodes| && a.nodes[i].Child? && b.nodes[i].Child?
    && a.nodes[..i] == b.nodes[..i] && a.nodes[i + 1..] == b.nodes[i + 1..]
    && (level > 0 ==> Inserted(a.nodes[i].element, b.nodes[i].element, level - 1))
  }

  lemma {:induction false} TextAppends(a: seq<Node>, b: seq<Node>)
    ensures TextOf(a + b) == TextOf(a) + TextOf(b)
  {
    if a == [] {
      assert a + b == b;
    } else {
      TextAppends(a[1..], b);
      WithoutHead(a, b);
      if a[0].Text? { Regroup(a[0].text, TextOf(a[1..]), TextOf(b)); }
    }
  }

  /** What one node adds to the children and to the text. */
  lemma OneNode(n: Node)
    ensures Kids([n]) == match n case Child(x) => [x] case Text(_) => []
    ensures TextOf([n]) == match n case Child(_) => "" case Text(t) => t
  {
    assert [n][1..] == [];
    if n.Text? { assert n.text + "" == n.text; }
  }

  lemma OneElement(x: Element)
    ensures Kids([Child(x)]) == [x] && TextOf([Child(x)]) == ""
  {
    OneNode(Child(x));
  }

  lemma KidsAround(p: seq<Node>, x: Element, q: seq<Node>)
    ensures Kids(p + [Child(x)] + q) == Kids(p) + [x] + Kids(q)
  {
    KidsAppend(p + [Child(x)], q);
    KidsAppend(p, [Child(x)]);
    OneElement(x);
  }

  lemma TextAround(p: seq<Node>, x: Element, q: seq<Node>)
    ensures TextOf(p + [Child(x)] + q) == TextOf(p) + TextOf(q)
  {
    TextAppends(p + [Child(x)], q);
    TextAppends(p, [Child(x)]);
    OneElement(x);
    assert TextOf(p) + "" == TextOf(p);
  }

  lemma {:induction false} TrimAppends(a: seq<Element>, b: seq<Element>, parent: string, level: nat)
    requires level > 0
    ensures TrimKids(a + b, parent, level) == TrimKids(a, parent, level) + TrimKids(b, parent, level)
    decreases |b|
  {
    if b == [] {
      assert a + b == a;
    } else {
      var front, e := b[..|b| - 1], b[|b| - 1];
      TrimAppends(a, front, parent, level);
      assert a + b == a + front + [e];
      TrimLast(a + front, e, parent, level);
    }
  }

  lemma TrimAround(p: seq<Element>, x: Element, q: seq<Element>, parent: string, level: nat)
    requires level > 0
    ensures var t := if KnownIn(level == 2, parent, x) then [Trim(x, level - 1)] else [];
            TrimKids(p + [x] + q, parent, level) == TrimKids(p, parent, level) + t + TrimKids(q, parent, level)
  {
    TrimAppends(p + [x], q, parent, level);
    TrimLast(p, x, parent, level);
  }

  lemma TrimByText(a: Element, b: Element)
    requires a.name == b.name && a.ns == b.ns && TextOf(a.nodes) == TextOf(b.nodes)
    ensures Trim(a, 0) == Trim(b, 0)
  {
  }

  lemma TrimByKids(a: Element, b: Element, level: nat)
    requires level > 0 && a.name == b.name && a.ns == b.ns
    requires TrimKids(Kids(a.nodes), a.name, level) == TrimKids(Kids(b.nodes), a.name, level)
    ensures Trim(a, level) == Trim(b, level)
  {
  }

  lemma InsertedHereIsTrimmed(a: Element, b: Element, level: nat, i: nat, x: Element)
    requires a.name == b.name && a.ns == b.ns && InsertedAt(a, b, level, i, x)
    ensures Trim(a, level) == Trim(b, level)
  {
    var p, q := a.nodes[..i], a.nodes[i..];
    assert p + q == a.nodes;
    if level == 0 {
      TextAround(p, x, q);
      TextAppends(p, q);
      TrimByText(a, b);
    } else {
      KidsAround(p, x, q);
      KidsAppend(p, q);
      TrimAround(Kids(p), x, Kids(q), a.name, level);
      TrimAppends(Kids(p), Kids(q), a.name, level);
      assert TrimKids(Kids(p), a.name, level) + [] == TrimKids(Kids(p), a.name, level);
      TrimByKids(a, b, level);
    }
  }

  lemma {:induction false} InsertedBelowIsTrimmed(a: Element, b: Element, level: nat, i: nat)
    requires a.name == b.name && a.ns == b.ns && InsertedBelow(a, b, level, i)
    ensures Trim(a, level) == Trim(b, level)
    decreases level, 0
  {
    var p, x, y, q := a.nodes[..i], a.nodes[i].element, b.nodes[i].element, a.nodes[i + 1..];
    assert p + [Child(x)] + q == a.nodes;
    assert p + [Child(y)] + q == b.nodes;
    if level == 0 {
      TextAround(p, x, q);
      TextAround(p, y, q);
      TrimByText(a, b);
    } else {
      KidsAround(p, x, q);
      KidsAround(p, y, q);
      InsertedIsTrimmed(x, y, level - 1);
      TrimAround(Kids(p), x, Kids(q), a.name, level);
      TrimAround(Kids(p), y, Kids(q), a.name, level);
      TrimByKids(a, b, level);
    }
  }

  lemma {:induction false} InsertedIsTrimmed(a: Element, b: Element, level: nat)
    requires Inserted(a, b, level)
    ensures Trim(a, level) == Trim(b, level)
    decreases level, 1
  {
    if i, x :| InsertedAt(a, b, level, i, x) {
      InsertedHereIsTrimmed(a, b, level, i, x);
    } else {
      var i :| InsertedBelow(a, b, level, i);
      InsertedBelowIsTrimmed(a, b, level, i);
    }
  }

  /** Putting an unknown child in anywhere under the root never changes what is parsed. */
  lemma UnknownChildrenDoNotMatter(a: Element, b: Element)
    requires Inserted(a, b, 2)
    ensures Parse(a) == Parse(b)
  {
    InsertedIsTrimmed(a, b, 2);
    ParseSeesTrimmed(a);
    ParseSeesTrimmed(b);
  }
}
