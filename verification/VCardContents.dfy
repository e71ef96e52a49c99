/**
 What a parsed contact card contains, said by the names of the elements alone
 (crates/prose-xmpp/src/stanza/vcard4.rs:120-170, 191-210, 234-255, 289-305).
 */
module VCardContents {
  import opened Basics
  import opened VCard4

  // ---- Names of elements ----

  /** The elements with that name, in order. */
  function Named(es: seq<Element>, name: string): seq<Element> {
    if es == [] then []
    else Named(es[..|es| - 1], name) + if es[|es| - 1].name == name then [es[|es| - 1]] else []
  }

  lemma FieldNamedExactly(name: string, f: Field)
    ensures FieldNamed(name) == Some(f) <==> name == FieldName(f)
  {
  }

  lemma PartNamedExactly(name: string, p: Part)
    ensures PartNamed(name) == Some(p) <==> name == PartName(p)
  {
  }

  /** A child of the root is passed over exactly if it has none of the twelve names. */
  lemma PassedOverExactly(e: Element)
    ensures Read(e) == Ok(None) <==>
            e.name !in {"fn", "n", "nickname", "email", "adr", "impp", "note", "url", "title", "tel", "org", "role"}
  {
    assert FieldNamed(e.name).None? <==>
           e.name !in {"fn", "nickname", "email", "impp", "note", "url", "title", "tel", "org", "role"};
  }

  // ---- Values ----

  /** The child at `k` is the first with that name in the vCard namespace. */
  ghost predicate IsFirst(kids: seq<Element>, name: string, k: nat) {
    && k < |kids| && kids[k].name == name && kids[k].ns == NS
    && forall j :: 0 <= j < k ==> kids[j].name != name || kids[j].ns != NS
  }

  ghost predicate Has(e: Element, name: string) { exists k: nat :: IsFirst(Kids(e.nodes), name, k) }

  /** `x` is the text of the first child with that name. */
  ghost predicate Says(e: Element, name: string, x: string) {
    var kids := Kids(e.nodes);
    exists k: nat :: IsFirst(kids, name, k) && x == TextOf(kids[k].nodes)
  }

  lemma {:induction false} ChildTextIsFirst(kids: seq<Element>, name: string)
    ensures var t := ChildText(kids, name);
            if t.Some? then exists k: nat :: IsFirst(kids, name, k) && t.value == TextOf(kids[k].nodes)
            else forall k: nat :: !IsFirst(kids, name, k)
  {
    if kids != [] {
      if kids[0].name == name && kids[0].ns == NS {
        assert IsFirst(kids, name, 0);
      } else {
        ChildTextIsFirst(kids[1..], name);
        if ChildText(kids, name).Some? {
          var k: nat :| IsFirst(kids[1..], name, k) && ChildText(kids, name).value == TextOf(kids[1..][k].nodes);
          assert IsFirst(kids, name, k + 1);
        } else {
          forall k: nat ensures !IsFirst(kids, name, k) {
            if k > 0 && IsFirst(kids, name, k) { assert IsFirst(kids[1..], name, k - 1); }
          }
        }
      }
    }
  }

  lemma ChildValueIsFirst(e: Element, name: string)
    ensures var t := ChildValue(e, name);
            if t.Ok? then Says(e, name, t.value) && Has(e, name)
            else !Has(e, name) && t == Err(Missing(e.name, name))
  {
    ChildTextIsFirst(Kids(e.nodes), name);
  }

  /** A number given as text is taken as it is, and otherwise the address without its scheme. */
  ghost predicate Dials(e: Element, x: string) {
    if Has(e, "text") then Says(e, "text", x)
    else Says(e, "uri", "tel:" + x) || (Says(e, "uri", x) && !("tel:" <= x))
  }

  /** `xs` are the values of the elements, one each and in order. */
  ghost predicate AllSay(xs: seq<string>, es: seq<Element>, name: string) {
    |xs| == |es| && forall i :: 0 <= i < |es| ==> Says(es[i], name, xs[i])
  }

  ghost predicate AllDial(xs: seq<string>, es: seq<Element>) {
    |xs| == |es| && forall i :: 0 <= i < |es| ==> Dials(es[i], xs[i])
  }

  ghost predicate ReadAs(xs: seq<string>, es: seq<Element>, f: Field) {
    |xs| == |es| && forall i :: 0 <= i < |es| ==> ReadField(f, es[i]) == Ok(xs[i])
  }

  lemma FieldIsSaid(f: Field, e: Element, x: string)
    requires ReadField(f, e) == Ok(x) && !f.Tel?
    ensures Says(e, if f.Impp? || f.Url? then "uri" else "text", x)
  {
    ChildValueIsFirst(e, "text");
    ChildValueIsFirst(e, "uri");
  }

  lemma TelIsDialled(e: Element, x: string)
    requires ReadField(Tel, e) == Ok(x)
    ensures Dials(e, x)
  {
    ChildValueIsFirst(e, "text");
    ChildValueIsFirst(e, "uri");
    var uri := ChildValue(e, "uri");
    if ChildValue(e, "text").Err? && "tel:" <= uri.value { assert uri.value == "tel:" + x; }
  }

  lemma ReadAsSays(xs: seq<string>, es: seq<Element>, f: Field)
    requires ReadAs(xs, es, f) && !f.Tel?
    ensures AllSay(xs, es, if f.Impp? || f.Url? then "uri" else "text")
  {
    forall i | 0 <= i < |es| ensures Says(es[i], if f.Impp? || f.Url? then "uri" else "text", xs[i]) {
      FieldIsSaid(f, es[i], xs[i]);
    }
  }

  lemma ReadAsDials(xs: seq<string>, es: seq<Element>)
    requires ReadAs(xs, es, Tel)
    ensures AllDial(xs, es)
  {
    forall i | 0 <= i < |es| ensures Dials(es[i], xs[i]) {
      TelIsDialled(es[i], xs[i]);
    }
  }

  // ---- Names and addresses ----

  /** The last child with that name decides, wherever it is in the namespaces. */
  ghost predicate LastSays(kids: seq<Element>, name: string, t: Option<string>) {
    if t.None? then forall i :: 0 <= i < |kids| ==> kids[i].name != name
    else exists k :: 0 <= k < |kids| && kids[k].name == name && t.value == TextOf(kids[k].nodes) &&
                     forall j :: k < j < |kids| ==> kids[j].name != name
  }

  ghost predicate Spells(n: Name, kids: seq<Element>) {
    LastSays(kids, "surname", n.surname) && LastSays(kids, "given", n.given) &&
    LastSays(kids, "additional", n.additional)
  }

  lemma LastSaysPush(kids: seq<Element>, e: Element, name: string, t: Option<string>)
    requires LastSays(kids, name, t)
    ensures LastSays(kids + [e], name, if e.name == name then Some(TextOf(e.nodes)) else t)
  {
    var all := kids + [e];
    if e.name == name {
      assert all[|kids|] == e;
    } else if t.Some? {
      var k :| 0 <= k < |kids| && kids[k].name == name && t.value == TextOf(kids[k].nodes) &&
               forall j :: k < j < |kids| ==> kids[j].name != name;
      assert all[k] == kids[k];
    }
  }

  lemma {:induction false} NameIsSpelled(kids: seq<Element>)
    ensures Spells(NameFrom(kids), kids)
  {
    if kids != [] {
      var front, e := kids[..|kids| - 1], kids[|kids| - 1];
      NameIsSpelled(front);
      var n := NameFrom(front);
      LastSaysPush(front, e, "surname", n.surname);
      LastSaysPush(front, e, "given", n.given);
      LastSaysPush(front, e, "additional", n.additional);
      assert front + [e] == kids;
    }
  }

  /** The texts of the children with that name, complete and in order. */
  function Texts(kids: seq<Element>, name: string): seq<string> {
    if kids == [] then []
    else
      var e := kids[|kids| - 1];
      Texts(kids[..|kids| - 1], name) + if e.name == name then [TextOf(e.nodes)] else []
  }

  ghost predicate Locates(a: Adr, kids: seq<Element>) {
    && a.code == Texts(kids, "code") && a.country == Texts(kids, "country") && a.ext == Texts(kids, "ext")
    && a.locality == Texts(kids, "locality") && a.pobox == Texts(kids, "pobox")
    && a.region == Texts(kids, "region") && a.street == Texts(kids, "street")
  }

  lemma {:induction false} PartIsTexts(kids: seq<Element>, p: Part)
    ensures PartOf(AdrFrom(kids), p) == Texts(kids, PartName(p))
  {
    if kids == [] {
      assert PartOf(EMPTY_ADR, p) == [];
    } else {
      var front, e := kids[..|kids| - 1], kids[|kids| - 1];
      PartIsTexts(front, p);
      PartNamedExactly(e.name, p);
      var a, part := AdrFrom(front), PartNamed(e.name);
      if part.Some? { PartOfExtended(a, part.value, [TextOf(e.nodes)], p); }
      assert PartOf(a, p) + [] == PartOf(a, p);
    }
  }

  lemma AdrIsLocated(kids: seq<Element>)
    ensures Locates(AdrFrom(kids), kids)
  {
    PartIsTexts(kids, Code);
    PartIsTexts(kids, Country);
    PartIsTexts(kids, Ext);
    PartIsTexts(kids, Locality);
    PartIsTexts(kids, Pobox);
    PartIsTexts(kids, Region);
    PartIsTexts(kids, Street);
  }

  // ---- The card ----

  lemma PlainByName(es: seq<Element>, e: Element, f: Field, xs: seq<string>)
    requires ReadAs(xs, Named(es, FieldName(f)), f) && Read(e).Ok?
    ensures var x := Read(e).value;
            var own := x.Some? && x.value.Plain? && x.value.field == f;
            (own <==> e.name == FieldName(f)) && (own ==> ReadField(f, e) == Ok(x.value.value))
  {
    FieldNamedExactly(e.name, f);
  }

  /** A field holds the values of the children with its name. */
  lemma {:induction false} FieldByName(es: seq<Element>, f: Field)
    requires AllRead(es)
    ensures ReadAs(Values(Properties(es), f), Named(es, FieldName(f)), f)
  {
    if es != [] {
      var front, e := es[..|es| - 1], es[|es| - 1];
      FieldByName(front, f);
      var ps, p := Properties(front), Read(e).value;
      PlainByName(front, e, f, Values(ps, f));
      if p.Some? { assert (ps + [p.value])[..|ps|] == ps; } else { assert ps + [] == ps; }
    }
  }

  ghost predicate AllSpell(ns: seq<Name>, es: seq<Element>) {
    |ns| == |es| && forall i :: 0 <= i < |es| ==> es[i].ns == NS && Spells(ns[i], Kids(es[i].nodes))
  }

  ghost predicate AllLocate(xs: seq<Adr>, es: seq<Element>) {
    |xs| == |es| && forall i :: 0 <= i < |es| ==> Locates(xs[i], Kids(es[i].nodes))
  }

  lemma {:induction false} NamesByName(es: seq<Element>)
    requires AllRead(es)
    ensures AllSpell(NamesOf(Properties(es)), Named(es, "n"))
  {
    if es != [] {
      var front, e := es[..|es| - 1], es[|es| - 1];
      NamesByName(front);
      var ps, p := Properties(front), Read(e).value;
      if p.Some? { assert (ps + [p.value])[..|ps|] == ps; } else { assert ps + [] == ps; }
      if e.name == "n" { NameIsSpelled(Kids(e.nodes)); }
    }
  }

  lemma {:induction false} AdrsByName(es: seq<Element>)
    requires AllRead(es)
    ensures AllLocate(AdrsOf(Properties(es)), Named(es, "adr"))
  {
    if es != [] {
      var front, e := es[..|es| - 1], es[|es| - 1];
      AdrsByName(front);
      var ps, p := Properties(front), Read(e).value;
      if p.Some? { assert (ps + [p.value])[..|ps|] == ps; } else { assert ps + [] == ps; }
      if e.name == "adr" { AdrIsLocated(Kids(e.nodes)); }
    }
  }

  lemma SaidByName(es: seq<Element>, f: Field)
    requires AllRead(es) && !f.Tel?
    ensures AllSay(Values(Properties(es), f), Named(es, FieldName(f)), if f.Impp? || f.Url? then "uri" else "text")
  {
    FieldByName(es, f);
    ReadAsSays(Values(Properties(es), f), Named(es, FieldName(f)), f);
  }

  ghost predicate Matches(v: VCard, kids: seq<Element>) {
    && AllLocate(v.adr, Named(kids, "adr"))
    && AllSpell(v.n, Named(kids, "n"))
    && AllSay(v.email, Named(kids, "email"), "text")
    && AllSay(v.fn, Named(kids, "fn"), "text")
    && AllSay(v.impp, Named(kids, "impp"), "uri")
    && AllSay(v.nickname, Named(kids, "nickname"), "text")
    && AllSay(v.note, Named(kids, "note"), "text")
    && AllSay(v.org, Named(kids, "org"), "text")
    && AllSay(v.role, Named(kids, "role"), "text")
    && AllSay(v.title, Named(kids, "title"), "text")
    && AllDial(v.tel, Named(kids, "tel"))
    && AllSay(v.url, Named(kids, "url"), "uri")
  }

  lemma CollectedMatches(es: seq<Element>)
    requires AllRead(es)
    ensures Matches(Collected(Properties(es)), es)
  {
    AdrsByName(es);
    NamesByName(es);
    SaidByName(es, Email);
    SaidByName(es, Fn);
    SaidByName(es, Impp);
    SaidByName(es, Nickname);
    SaidByName(es, Note);
    SaidByName(es, Org);
    SaidByName(es, Role);
    SaidByName(es, Title);
    SaidByName(es, Url);
    FieldByName(es, Tel);
    ReadAsDials(Values(Properties(es), Tel), Named(es, "tel"));
  }

  // ---- Errors ----

  /** What is wrong with a child of the root, if anything. */
  ghost predicate Lacks(e: Element, error: ParseError) {
    if e.name == "n" then e.ns != NS && error == Unexpected("n", "n", e.ns)
    else if e.name == "tel" then !Has(e, "text") && !Has(e, "uri") && error == Missing("tel", "uri")
    else if e.name in {"impp", "url"} then !Has(e, "uri") && error == Missing(e.name, "uri")
    else
      && e.name in {"email", "fn", "nickname", "note", "org", "role", "title"}
      && !Has(e, "text") && error == Missing(e.name, "text")
  }

  lemma UnreadableExactly(e: Element, error: ParseError)
    ensures Read(e) == Err(error) <==> Lacks(e, error)
  {
    ChildValueIsFirst(e, "text");
    ChildValueIsFirst(e, "uri");
  }

  /** The first child with something wrong is at `k`. */
  ghost predicate FirstLacks(kids: seq<Element>, k: nat, error: ParseError) {
    k < |kids| && Lacks(kids[k], error) && forall j, other :: 0 <= j < k ==> !Lacks(kids[j], other)
  }

  /**
   What parsing any tree yields, in the names of its elements alone: the error of the root or of
   the first child that lacks something, or the card that matches the children name by name.
   */
  lemma ParseByName(root: Element)
    ensures var kids := Kids(root.nodes);
            if root.name != "vcard" || root.ns != "urn:ietf:params:xml:ns:vcard-4.0" then
              Parse(root) == Err(Unexpected("vcard", root.name, root.ns))
            else match Parse(root)
                 case Ok(v) => Matches(v, kids) && forall j, error :: 0 <= j < |kids| ==> !Lacks(kids[j], error)
                 case Err(error) => exists k: nat :: FirstLacks(kids, k, error)
  {
    var kids := Kids(root.nodes);
    ParseIsExact(root);
    if root.name == "vcard" && root.ns == NS {
      if AllRead(kids) {
        CollectedMatches(kids);
        forall j, error | 0 <= j < |kids| ensures !Lacks(kids[j], error) { UnreadableExactly(kids[j], error); }
      } else {
        var k: nat :| k < |kids| && AllRead(kids[..k]) && Read(kids[k]).Err? && Parse(root) == Err(Read(kids[k]).error);
        UnreadableExactly(kids[k], Read(kids[k]).error);
        forall j, other | 0 <= j < k ensures !Lacks(kids[j], other) {
          assert kids[..k][j] == kids[j];
          UnreadableExactly(kids[j], other);
        }
        assert FirstLacks(kids, k, Read(kids[k]).error);
      }
    }
  }

  // ---- Printing ----

  /** The element and all it holds is in the vCard namespace, and nothing in it would be passed over. */
  ghost predicate Tidy(e: Element, level: nat)
    decreases level, 0
  {
    e.ns == NS && Trim(e, level) == e && (level > 0 ==> AllTidy(Kids(e.nodes), level - 1))
  }

  ghost predicate AllTidy(es: seq<Element>, level: nat)
    decreases level, 1
  {
    forall i :: 0 <= i < |es| ==> Tidy(es[i], level)
  }

  lemma {:induction false} KnownAreKept(es: seq<Element>, parent: string, level: nat)
    requires level > 0 && AllTidy(es, level - 1)
    requires forall i :: 0 <= i < |es| ==> KnownIn(level == 2, parent, es[i])
    ensures TrimKids(es, parent, level) == es
    decreases |es|
  {
    if es != [] {
      var front, e := es[..|es| - 1], es[|es| - 1];
      KnownAreKept(front, parent, level);
      assert es == front + [e] && Tidy(e, level - 1);
    }
  }

  lemma BranchIsTidy(name: string, es: seq<Element>, level: nat)
    requires level > 0 && AllTidy(es, level - 1)
    requires forall i :: 0 <= i < |es| ==> KnownIn(level == 2, name, es[i])
    ensures Tidy(Element(name, NS, Nodes(es)), level)
  {
    KidsOfNodes(es);
    KnownAreKept(es, name, level);
  }

  lemma LeafIsTidy(name: string, text: string)
    ensures Tidy(Leaf(name, text), 0)
  {
    LeafHoldsText(name, text);
  }

  ghost predicate TidyName(nodes: seq<Node>) {
    forall i :: 0 <= i < |nodes| ==>
      nodes[i].Child? && Tidy(nodes[i].element, 0) && KnownIn(false, "n", nodes[i].element)
  }

  lemma MaybeIsTidy(name: string, text: Option<string>)
    requires name in {"additional", "given", "surname"}
    ensures TidyName(Maybe(name, text))
  {
    if text.Some? { LeafIsTidy(name, text.value); }
  }

  lemma NodesOfKids(nodes: seq<Node>) returns (es: seq<Element>)
    requires TidyName(nodes)
    ensures Nodes(es) == nodes
    ensures AllTidy(es, 0) && forall i :: 0 <= i < |es| ==> KnownIn(false, "n", es[i])
  {
    es := seq(|nodes|, i requires 0 <= i < |nodes| => nodes[i].element);
  }

  lemma NameIsTidy(n: Name)
    ensures Tidy(PrintName(n), 1)
  {
    MaybeIsTidy("given", n.given);
    MaybeIsTidy("surname", n.surname);
    MaybeIsTidy("additional", n.additional);
    var es := NodesOfKids(PrintName(n).nodes);
    BranchIsTidy("n", es, 1);
  }

  lemma {:induction false} AdrLeavesAreTidy(a: Adr, parts: seq<Part>)
    ensures AllTidy(AdrLeaves(a, parts), 0)
    ensures forall i :: 0 <= i < |AdrLeaves(a, parts)| ==> KnownIn(false, "adr", AdrLeaves(a, parts)[i])
  {
    if parts != [] {
      AdrLeavesAreTidy(a, parts[..|parts| - 1]);
      var last := parts[|parts| - 1];
      var texts := PartOf(a, last);
      forall i | 0 <= i < |texts| ensures Tidy(Leaves(last, texts)[i], 0) {
        LeafIsTidy(PartName(last), texts[i]);
      }
    }
  }

  lemma PlainIsTidy(f: Field, x: string)
    ensures Tidy(PrintPlain(f, x), 1)
  {
    var leaf := Leaf(ValueName(f), x);
    LeafIsTidy(ValueName(f), x);
    BranchIsTidy(FieldName(f), [leaf], 1);
    assert Nodes([leaf]) == [Child(leaf)];
  }

  lemma PropertyIsTidy(p: Property)
    ensures Tidy(PrintProperty(p), 1) && KnownIn(true, "vcard", PrintProperty(p))
  {
    match p
    case Address(adr) =>
      AdrLeavesAreTidy(adr, PART_ORDER);
      BranchIsTidy("adr", AdrLeaves(adr, PART_ORDER), 1);
    case FullName(name) => NameIsTidy(name);
    case Plain(f, x) => PlainIsTidy(f, x);
  }

  /** Nothing is printed that parsing the card again would not need. */
  lemma PrintedIsTidy(v: VCard)
    ensures Tidy(Print(v), 2)
  {
    var ps := Listed(v, PRINT_ORDER);
    forall i | 0 <= i < |ps| ensures Tidy(PrintAll(ps)[i], 1) && KnownIn(true, "vcard", PrintAll(ps)[i]) {
      PropertyIsTidy(ps[i]);
    }
    BranchIsTidy("vcard", PrintAll(ps), 2);
  }

  /** A printed number stands in a text and no longer in an address. */
  lemma TelephoneIsPrintedAsText(v: VCard, i: nat)
    requires i < |v.tel|
    ensures Element("tel", NS, [Child(Element("text", NS, [Text(v.tel[i])]))]) in Kids(Print(v).nodes)
  {
    var e := PrintPlain(Tel, v.tel[i]);
    BlockIsListed(v, PRINT_ORDER, 10, i);
    var ps := Listed(v, PRINT_ORDER);
    KidsOfNodes(PrintAll(ps));
    var k :| 0 <= k < |ps| && ps[k] == Plain(Tel, v.tel[i]);
    assert PrintAll(ps)[k] == e;
  }

  lemma {:induction false} BlockIsListed(v: VCard, slots: seq<Slot>, k: nat, i: nat)
    requires k < |slots| && i < |Block(v, slots[k])|
    ensures Block(v, slots[k])[i] in Listed(v, slots)
  {
    if k < |slots| - 1 { BlockIsListed(v, slots[..|slots| - 1], k, i); }
  }
}
