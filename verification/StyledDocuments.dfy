/**
 What the styling writer makes of whole documents, and the invariants of its stack:
 documents are trees, the writer sees them as well-nested event streams.
 */
module StyledDocuments {
  import opened Basics
  import opened StylingWriter
  import opened Decimals

  /** A document node; the items of a list are its only children, as the Markdown parser guarantees. */
  datatype Node =
    | Leaf(event: Event)
    | Element(tag: Tag, children: seq<Node>)
    | Listing(start: Option<nat>, items: seq<ListItem>)

  datatype ListItem = ListItem(content: seq<Node>)

  predicate Proper(n: Node)
    decreases n, 0
  {
    match n
    case Leaf(e) => !e.Start? && !e.End?
    case Element(tag, children) => !tag.List? && !tag.Item? && AllProper(children)
    case Listing(_, items) => forall i :: 0 <= i < |items| ==> AllProper(items[i].content)
  }

  predicate AllProper(ns: seq<Node>)
    decreases ns, 1
  {
    forall i :: 0 <= i < |ns| ==> Proper(ns[i])
  }

  // ---- The events of a document ----

  function Events(n: Node): seq<Event>
    decreases n, 0
  {
    match n
    case Leaf(e) => [e]
    case Element(tag, children) => [Start(tag)] + AllEvents(children) + [End(tag)]
    case Listing(start, items) => [Start(List(start))] + ItemEvents(items) + [End(List(start))]
  }

  function AllEvents(ns: seq<Node>): seq<Event>
    decreases ns, 1
  {
    if ns == [] then [] else Events(ns[0]) + AllEvents(ns[1..])
  }

  function ItemEvents(items: seq<ListItem>): seq<Event>
    decreases items, 1
  {
    if items == [] then [] else ([Start(Item)] + AllEvents(items[0].content) + [End(Item)]) + ItemEvents(items[1..])
  }

  // ---- The text of a document, by recursion over the tree ----

  datatype Page = Page(out: string, link: Option<LinkState>)

  function Open(tag: Tag, quotes: nat, p: Page): Page {
    match tag
    case Fenced(language) => p.(out := p.out + "```" + language + "\n")
    case Indented => p.(out := p.out + "```" + "\n")
    case Emphasis => p.(out := p.out + "_")
    case Strikethrough => p.(out := p.out + "~")
    case Strong => p.(out := p.out + "*")
    case Paragraph => p.(out := FreshLine(p.out) + QuotePrefix(quotes))
    case Link(url, jid) => p.(link := Some(LinkState(url, IsReference(url, jid))))
    case _ => p
  }

  function Close(tag: Tag, quotes: nat, p: Page): Page {
    match tag
    case BlockQuote => p.(out := FreshLine(p.out))
    case Fenced(_) => p.(out := p.out + "```")
    case Indented => p.(out := p.out + "```")
    case Emphasis => p.(out := p.out + "_")
    case Strikethrough => p.(out := p.out + "~")
    case Strong => p.(out := p.out + "*")
    case Paragraph => p.(out := Newline(FreshLine(p.out) + QuotePrefix(quotes)))
    case Heading => p.(out := Newline(Newline(p.out)))
    case Link(_, _) => Page(p.out + LinkText(p.link), None)
    case _ => p
  }

  function LeafText(e: Event, quotes: nat, out: string): string {
    match e
    case Code(text) => out + "`" + text + "`"
    case Text(text) => out + Escape(text, true)
    case Html(text) => out + Escape(text, false)
    case Break => Newline(out) + QuotePrefix(quotes)
    case Rule => out + "***"
    case _ => out
  }

  /** The number of item `k` of a list, if it is an ordered one. */
  function Number(start: Option<nat>, k: nat): Option<nat> { if start.Some? then Some(start.value + k) else None }

  /** `quotes` and `depth`: how many block quotes and lists the node stands in. */
  function Render(n: Node, quotes: nat, depth: nat, p: Page): Page
    decreases n, 0
  {
    match n
    case Leaf(e) => p.(out := LeafText(e, quotes, p.out))
    case Element(tag, children) =>
      var inner := if tag.BlockQuote? then quotes + 1 else quotes;
      Close(tag, quotes, RenderAll(children, inner, depth, Open(tag, quotes, p)))
    case Listing(start, items) =>
      var begun := if depth == 0 then p else p.(out := Newline(p.out));
      var done := RenderItems(start, 0, items, quotes, depth + 1, begun);
      if depth == 0 then done.(out := Newline(done.out)) else done
  }

  function RenderAll(ns: seq<Node>, quotes: nat, depth: nat, p: Page): Page
    decreases ns, 1
  {
    if ns == [] then p else RenderAll(ns[1..], quotes, depth, Render(ns[0], quotes, depth, p))
  }

  /** Item `k` starts on a fresh line, indented by its depth, and carries number start + k. */
  function RenderItems(start: Option<nat>, k: nat, items: seq<ListItem>, quotes: nat, depth: nat, p: Page): Page
    requires depth > 0
    decreases items, 1
  {
    if items == [] then p
    else
      var marked := p.(out := FreshLine(p.out) + Repeat("   ", depth - 1) + Marker(Number(start, k)));
      var body := RenderAll(items[0].content, quotes, depth, marked);
      RenderItems(start, k + 1, items[1..], quotes, depth, body.(out := FreshLine(body.out)))
  }

  // ---- The writer renders the tree ----

  function SheetOf(p: Page, lists: seq<Option<nat>>, quotes: nat): Sheet { Sheet(p.out, lists, p.link, quotes) }

  ghost predicate Runs(s: Sheet, es: seq<Event>, s': Sheet) { SheetRun(s, es) == Some(s') }

  lemma RunsInTurn(s: Sheet, a: seq<Event>, s1: Sheet, b: seq<Event>, s2: Sheet)
    requires Runs(s, a, s1) && Runs(s1, b, s2)
    ensures Runs(s, a + b, s2)
  {
    RunAppends(s, a, b);
  }

  lemma RunsBetween(s: Sheet, first: Event, s1: Sheet, body: seq<Event>, s2: Sheet, last: Event, s3: Sheet)
    requires SheetStep(s, first) == Some(s1) && Runs(s1, body, s2) && SheetStep(s2, last) == Some(s3)
    ensures Runs(s, [first] + body + [last], s3)
  {
    RunOne(s, first);
    RunOne(s2, last);
    RunsInTurn(s, [first], s1, body, s2);
    RunsInTurn(s, [first] + body, s2, [last], s3);
  }

  lemma {:induction false} NodeIsRendered(n: Node, quotes: nat, lists: seq<Option<nat>>, p: Page)
    requires Proper(n)
    ensures Runs(SheetOf(p, lists, quotes), Events(n), SheetOf(Render(n, quotes, |lists|, p), lists, quotes))
    decreases n, 0
  {
    var s := SheetOf(p, lists, quotes);
    match n
    case Leaf(e) => RunOne(s, e);
    case Element(tag, children) =>
      var inner, begun := if tag.BlockQuote? then quotes + 1 else quotes, Open(tag, quotes, p);
      NodesAreRendered(children, inner, lists, begun);
      var body := RenderAll(children, inner, |lists|, begun);
      RunsBetween(s, Start(tag), SheetOf(begun, lists, inner), AllEvents(children), SheetOf(body, lists, inner),
                  End(tag), SheetOf(Close(tag, quotes, body), lists, quotes));
    case Listing(start, items) => ListIsRendered(start, items, quotes, lists, p);
  }

  lemma {:induction false} ListIsRendered(
      start: Option<nat>, items: seq<ListItem>, quotes: nat, lists: seq<Option<nat>>, p: Page)
    requires forall i :: 0 <= i < |items| ==> AllProper(items[i].content)
    ensures Runs(SheetOf(p, lists, quotes), Events(Listing(start, items)),
                 SheetOf(Render(Listing(start, items), quotes, |lists|, p), lists, quotes))
    decreases items, 2
  {
    var begun := if lists == [] then p else p.(out := Newline(p.out));
    ItemsAreRendered(start, 0, items, quotes, lists, begun);
    assert Number(start, 0) == start;
    var body := RenderItems(start, 0, items, quotes, |lists| + 1, begun);
    var last := lists + [Number(start, |items|)];
    assert last[..|last| - 1] == lists;
    RunsBetween(SheetOf(p, lists, quotes), Start(List(start)), SheetOf(begun, lists + [start], quotes),
                ItemEvents(items), SheetOf(body, last, quotes), End(List(start)),
                SheetOf(Render(Listing(start, items), quotes, |lists|, p), lists, quotes));
  }

  lemma {:induction false} NodesAreRendered(ns: seq<Node>, quotes: nat, lists: seq<Option<nat>>, p: Page)
    requires AllProper(ns)
    ensures Runs(SheetOf(p, lists, quotes), AllEvents(ns), SheetOf(RenderAll(ns, quotes, |lists|, p), lists, quotes))
    decreases ns, 1
  {
    if ns != [] {
      var p1 := Render(ns[0], quotes, |lists|, p);
      NodeIsRendered(ns[0], quotes, lists, p);
      NodesAreRendered(ns[1..], quotes, lists, p1);
      RunsInTurn(SheetOf(p, lists, quotes), Events(ns[0]), SheetOf(p1, lists, quotes), AllEvents(ns[1..]),
                 SheetOf(RenderAll(ns, quotes, |lists|, p), lists, quotes));
    }
  }

  lemma ItemStep(s: Sheet, n: nat, index: Option<nat>, next: Option<nat>)
    requires |s.lists| == n + 1 && s.lists[n] == index && next == if index.Some? then Some(index.value + 1) else None
    ensures SheetStep(s, Start(Item)) ==
            Some(Sheet(FreshLine(s.out) + Repeat("   ", n) + Marker(index), s.lists[n := next], s.link, s.quoteLevel))
  {
  }

  lemma ItemIsMarked(index: Option<nat>, next: Option<nat>, quotes: nat, lists: seq<Option<nat>>, p: Page)
    requires next == if index.Some? then Some(index.value + 1) else None
    ensures SheetStep(SheetOf(p, lists + [index], quotes), Start(Item)) ==
            Some(SheetOf(p.(out := FreshLine(p.out) + Repeat("   ", |lists|) + Marker(index)), lists + [next], quotes))
  {
    ReplaceLast(lists, index, next);
    ItemStep(SheetOf(p, lists + [index], quotes), |lists|, index, next);
  }

  /** One item: it takes the list's current number and leaves the next one. */
  lemma {:induction false} ItemIsRendered(
      start: Option<nat>, k: nat, item: ListItem, quotes: nat, lists: seq<Option<nat>>, p: Page)
    requires AllProper(item.content)
    ensures var marked := p.(out := FreshLine(p.out) + Repeat("   ", |lists|) + Marker(Number(start, k)));
            var body := RenderAll(item.content, quotes, |lists| + 1, marked);
            Runs(SheetOf(p, lists + [Number(start, k)], quotes), [Start(Item)] + AllEvents(item.content) + [End(Item)],
                 SheetOf(body.(out := FreshLine(body.out)), lists + [Number(start, k + 1)], quotes))
    decreases item, 2
  {
    var before, after := lists + [Number(start, k)], lists + [Number(start, k + 1)];
    ItemIsMarked(Number(start, k), Number(start, k + 1), quotes, lists, p);
    var marked := p.(out := FreshLine(p.out) + Repeat("   ", |lists|) + Marker(Number(start, k)));
    NodesAreRendered(item.content, quotes, after, marked);
    var body := RenderAll(item.content, quotes, |lists| + 1, marked);
    RunsBetween(SheetOf(p, before, quotes), Start(Item), SheetOf(marked, after, quotes), AllEvents(item.content),
                SheetOf(body, after, quotes), End(Item), SheetOf(body.(out := FreshLine(body.out)), after, quotes));
  }

  /** After `k` items the list's counter stands at its start plus `k`, whatever the items contain. */
  lemma {:induction false} ItemsAreRendered(
      start: Option<nat>, k: nat, items: seq<ListItem>, quotes: nat, lists: seq<Option<nat>>, p: Page)
    requires forall i :: 0 <= i < |items| ==> AllProper(items[i].content)
    ensures Runs(SheetOf(p, lists + [Number(start, k)], quotes), ItemEvents(items),
                 SheetOf(RenderItems(start, k, items, quotes, |lists| + 1, p),
                         lists + [Number(start, k + |items|)], quotes))
    decreases items, 1
  {
    if items != [] {
      var marked := p.(out := FreshLine(p.out) + Repeat("   ", |lists|) + Marker(Number(start, k)));
      var body := RenderAll(items[0].content, quotes, |lists| + 1, marked);
      var closed := body.(out := FreshLine(body.out));
      ItemIsRendered(start, k, items[0], quotes, lists, p);
      ItemsAreRendered(start, k + 1, items[1..], quotes, lists, closed);
      RunsInTurn(SheetOf(p, lists + [Number(start, k)], quotes),
                 [Start(Item)] + AllEvents(items[0].content) + [End(Item)],
                 SheetOf(closed, lists + [Number(start, k + 1)], quotes), ItemEvents(items[1..]),
                 SheetOf(RenderItems(start, k + 1, items[1..], quotes, |lists| + 1, closed),
                         lists + [Number(start, k + |items|)], quotes));
    }
  }

  /**
   For every document the writer runs through without underflow, writes exactly the
   rendered text, and ends with no open quotes or lists and with flags that fit the text.
   */
  lemma WriterRendersDocument(doc: seq<Node>)
    requires AllProper(doc)
    ensures var p := RenderAll(doc, 0, 0, Page("", None));
            Run(FRESH, AllEvents(doc)) == Some(Writer(p.out, p.out == "", EndsInNewline(p.out), [], p.link, 0))
  {
    NodesAreRendered(doc, 0, [], Page("", None));
    FlagsNeverLie(Sheet("", [], None, 0), AllEvents(doc));
  }

  // ---- A link is followed by its own address ----

  predicate Linkless(n: Node)
    decreases n, 0
  {
    match n
    case Leaf(_) => true
    case Element(tag, children) => !tag.Link? && AllLinkless(children)
    case Listing(_, items) => forall i :: 0 <= i < |items| ==> AllLinkless(items[i].content)
  }

  predicate AllLinkless(ns: seq<Node>)
    decreases ns, 1
  {
    forall i :: 0 <= i < |ns| ==> Linkless(ns[i])
  }

  lemma {:induction false} LinklessKeepsLink(n: Node, quotes: nat, depth: nat, p: Page)
    requires Linkless(n)
    ensures Render(n, quotes, depth, p).link == p.link
    decreases n, 0
  {
    match n
    case Leaf(_) =>
    case Element(tag, children) =>
      AllLinklessKeepLink(children, if tag.BlockQuote? then quotes + 1 else quotes, depth, Open(tag, quotes, p));
    case Listing(start, items) =>
      ItemsKeepLink(start, 0, items, quotes, depth + 1, if depth == 0 then p else p.(out := Newline(p.out)));
  }

  lemma {:induction false} AllLinklessKeepLink(ns: seq<Node>, quotes: nat, depth: nat, p: Page)
    requires AllLinkless(ns)
    ensures RenderAll(ns, quotes, depth, p).link == p.link
    decreases ns, 1
  {
    if ns != [] {
      LinklessKeepsLink(ns[0], quotes, depth, p);
      AllLinklessKeepLink(ns[1..], quotes, depth, Render(ns[0], quotes, depth, p));
    }
  }

  lemma {:induction false} ItemsKeepLink(
      start: Option<nat>, k: nat, items: seq<ListItem>, quotes: nat, depth: nat, p: Page)
    requires depth > 0 && forall i :: 0 <= i < |items| ==> AllLinkless(items[i].content)
    ensures RenderItems(start, k, items, quotes, depth, p).link == p.link
    decreases items, 1
  {
    if items != [] {
      var marked := p.(out := FreshLine(p.out) + Repeat("   ", depth - 1) + Marker(Number(start, k)));
      AllLinklessKeepLink(items[0].content, quotes, depth, marked);
      var body := RenderAll(items[0].content, quotes, depth, marked);
      ItemsKeepLink(start, k + 1, items[1..], quotes, depth, body.(out := FreshLine(body.out)));
    }
  }

  /**
   A link around anything but links ends with its own address in parentheses, whatever the
   text around it; a mention (an `xmpp:` address that is a bare JID) shows only its text.
   */
  lemma LinkShowsItsAddress(url: string, jid: bool, children: seq<Node>, quotes: nat, depth: nat, p: Page)
    requires AllLinkless(children)
    ensures var begun := p.(link := Some(LinkState(url, IsReference(url, jid))));
            var content := RenderAll(children, quotes, depth, begun).out;
            Render(Element(Link(url, jid), children), quotes, depth, p) ==
            Page(if "xmpp:" <= url && jid then content else content + (" (" + url + ")"), None)
  {
    AllLinklessKeepLink(children, quotes, depth, p.(link := Some(LinkState(url, IsReference(url, jid)))));
  }

  // ---- At every event: the stack is the stack of open tags ----

  /** An open tag, and how many items it has had so far if it is a list. */
  datatype Frame = Frame(tag: Tag, items: nat)

  predicate SameKind(a: Tag, b: Tag) {
    match a
    case BlockQuote => b.BlockQuote?
    case Fenced(_) => b.Fenced? || b.Indented?
    case Indented => b.Fenced? || b.Indented?
    case Emphasis => b.Emphasis?
    case Item => b.Item?
    case Link(_, _) => b.Link?
    case List(_) => b.List?
    case Strikethrough => b.Strikethrough?
    case Strong => b.Strong?
    case Paragraph => b.Paragraph?
    case Heading => b.Heading?
    case Plain => b.Plain?
  }

  /** The open tags after `e`; `None` if it closes the wrong tag or is an item outside a list. */
  function Nest(open: seq<Frame>, e: Event): Option<seq<Frame>> {
    var n := |open| - 1;
    match e
    case Start(tag) =>
      if !tag.Item? then Some(open + [Frame(tag, 0)])
      else if open == [] || !open[n].tag.List? then None
      else Some(open[n := open[n].(items := open[n].items + 1)] + [Frame(tag, 0)])
    case End(tag) => if open == [] || !SameKind(open[n].tag, tag) then None else Some(open[..n])
    case _ => Some(open)
  }

  /** The tags open after a prefix of a well-nested stream. */
  function OpenAfter(es: seq<Event>): Option<seq<Frame>> {
    if es == [] then Some([])
    else
      var before := OpenAfter(es[..|es| - 1]);
      if before.None? then None else Nest(before.value, es[|es| - 1])
  }

  function Quotes(open: seq<Frame>): nat {
    if open == [] then 0 else Quotes(open[..|open| - 1]) + if open[|open| - 1].tag.BlockQuote? then 1 else 0
  }

  function Counters(open: seq<Frame>): seq<Option<nat>> {
    if open == [] then []
    else
      var last := open[|open| - 1];
      Counters(open[..|open| - 1]) + if last.tag.List? then [Number(last.tag.start, last.items)] else []
  }

  lemma Push(open: seq<Frame>, f: Frame)
    ensures Quotes(open + [f]) == Quotes(open) + if f.tag.BlockQuote? then 1 else 0
    ensures Counters(open + [f]) == Counters(open) + if f.tag.List? then [Number(f.tag.start, f.items)] else []
  {
    assert (open + [f])[..|open|] == open;
  }

  lemma CountItem(open: seq<Frame>)
    requires open != [] && open[|open| - 1].tag.List?
    ensures var n, f := |open| - 1, open[|open| - 1];
            var counted := open[n := f.(items := f.items + 1)];
            && Quotes(counted) == Quotes(open)
            && Counters(open) == Counters(open[..n]) + [Number(f.tag.start, f.items)]
            && Counters(counted) == Counters(open[..n]) + [Number(f.tag.start, f.items + 1)]
  {
    var n, f := |open| - 1, open[|open| - 1];
    assert open[n := f.(items := f.items + 1)][..n] == open[..n];
  }

  ghost predicate InStep(s: Sheet, open: seq<Frame>) { s.quoteLevel == Quotes(open) && s.lists == Counters(open) }

  lemma ItemKeepsStack(s: Sheet, open: seq<Frame>)
    requires InStep(s, open) && Nest(open, Start(Item)).Some?
    ensures SheetStart(s, Item).Some? && InStep(SheetStart(s, Item).value, Nest(open, Start(Item)).value)
    ensures var f := open[|open| - 1];
            SheetStart(s, Item).value.out ==
            FreshLine(s.out) + Repeat("   ", |Counters(open)| - 1) + Marker(Number(f.tag.start, f.items))
  {
    CountItem(open);
    var n, f := |open| - 1, open[|open| - 1];
    var counted := open[n := f.(items := f.items + 1)];
    Push(counted, Frame(Item, 0));
    assert Counters(counted) + [] == Counters(counted);
    ReplaceLast(Counters(open[..n]), Number(f.tag.start, f.items), Number(f.tag.start, f.items + 1));
  }

  lemma ReplaceLast<T>(front: seq<T>, x: T, y: T)
    ensures (front + [x])[|front + [x]| - 1 := y] == front + [y] && (front + [x])[..|front + [x]| - 1] == front
  {
  }

  lemma EndKeepsStack(s: Sheet, open: seq<Frame>, tag: Tag)
    requires InStep(s, open) && Nest(open, End(tag)).Some?
    ensures SheetEnd(s, tag).Some? && InStep(SheetEnd(s, tag).value, Nest(open, End(tag)).value)
  {
    var front, f := open[..|open| - 1], open[|open| - 1];
    assert open == front + [f];
    Push(front, f);
    if tag.List? {
      ReplaceLast(Counters(front), Number(f.tag.start, f.items), None);
    } else {
      assert Counters(front) + [] == Counters(front);
    }
  }

  lemma StartKeepsStack(s: Sheet, open: seq<Frame>, tag: Tag)
    requires InStep(s, open) && !tag.Item?
    ensures SheetStart(s, tag).Some? && InStep(SheetStart(s, tag).value, open + [Frame(tag, 0)])
  {
    Push(open, Frame(tag, 0));
    if !tag.List? { assert Counters(open) + [] == Counters(open); }
    if tag.List? { assert Number(tag.start, 0) == tag.start; }
  }

  lemma StepKeepsStack(s: Sheet, open: seq<Frame>, e: Event)
    requires InStep(s, open) && Nest(open, e).Some?
    ensures SheetStep(s, e).Some? && InStep(SheetStep(s, e).value, Nest(open, e).value)
  {
    match e
    case Start(tag) => if tag.Item? { ItemKeepsStack(s, open); } else { StartKeepsStack(s, open, tag); }
    case End(tag) => EndKeepsStack(s, open, tag);
    case _ =>
  }

  /**
   At every event of a well-nested stream the writer has run without underflow, its quote
   level is the number of open block quotes, and its stack holds for every open list the
   number its next item will get: the start plus the items so far.
   */
  lemma {:induction false} StackFollowsOpenTags(es: seq<Event>)
    requires OpenAfter(es).Some?
    ensures var s := SheetRun(Sheet("", [], None, 0), es); s.Some? && InStep(s.value, OpenAfter(es).value)
  {
    if es != [] {
      var front := es[..|es| - 1];
      StackFollowsOpenTags(front);
      StepKeepsStack(SheetRun(Sheet("", [], None, 0), front).value, OpenAfter(front).value, es[|es| - 1]);
    }
  }

  /** `after` is `before` on a fresh line, as it is if it is empty or ends in a newline, followed by `line`. */
  predicate StartsLine(before: string, after: string, line: string) {
    after == (if before == "" || EndsInNewline(before) then before else before + "\n") + line
  }

  lemma FreshLineStarts(out: string, line: string)
    ensures StartsLine(out, FreshLine(out) + line, line)
  {
  }

  /**
   The next item of a list with `k` items so far starts on a fresh line, with three spaces per
   enclosing list and, read back, the number start + k; or with a star if the list has none.
   */
  lemma ItemsAreNumbered(es: seq<Event>) returns (line: string)
    requires OpenAfter(es).Some? && OpenAfter(es + [Start(Item)]).Some?
    ensures var open := OpenAfter(es).value;
            var blank := Sheet("", [], None, 0);
            var before, after := SheetRun(blank, es), SheetRun(blank, es + [Start(Item)]);
            && open != [] && open[|open| - 1].tag.List? && before.Some? && after.Some? && Counters(open) != []
            && StartsLine(before.value.out, after.value.out, line)
            && IsItemStart(line, |Counters(open)| - 1, Number(open[|open| - 1].tag.start, open[|open| - 1].items))
  {
    StackFollowsOpenTags(es);
    var blank := Sheet("", [], None, 0);
    RunAppends(blank, es, [Start(Item)]);
    var s, open := SheetRun(blank, es).value, OpenAfter(es).value;
    RunOne(s, Start(Item));
    assert (es + [Start(Item)])[..|es|] == es;
    ItemKeepsStack(s, open);
    CountItem(open);
    var depth, index := |Counters(open)| - 1, Number(open[|open| - 1].tag.start, open[|open| - 1].items);
    line := Repeat("   ", depth) + Marker(index);
    ItemStartShows(depth, index);
    FreshLineStarts(s.out, line);
    Regroup(FreshLine(s.out), Repeat("   ", depth), Marker(index));
  }

  /** A paragraph starts on a fresh line with one angle bracket per open block quote and a space. */
  lemma ParagraphsAreQuoted(es: seq<Event>) returns (prefix: string)
    requires OpenAfter(es).Some?
    ensures var blank := Sheet("", [], None, 0);
            var before, after := SheetRun(blank, es), SheetRun(blank, es + [Start(Paragraph)]);
            && before.Some? && after.Some?
            && StartsLine(before.value.out, after.value.out, prefix)
            && IsQuotePrefix(prefix, Quotes(OpenAfter(es).value))
  {
    StackFollowsOpenTags(es);
    var blank := Sheet("", [], None, 0);
    RunAppends(blank, es, [Start(Paragraph)]);
    var s := SheetRun(blank, es).value;
    RunOne(s, Start(Paragraph));
    prefix := QuotePrefix(s.quoteLevel);
    QuotePrefixShows(s.quoteLevel);
    FreshLineStarts(s.out, prefix);
  }

  // ---- Every document is a well-nested stream ----

  lemma OpenOneMore(es: seq<Event>, e: Event)
    requires OpenAfter(es).Some?
    ensures OpenAfter(es + [e]) == Nest(OpenAfter(es).value, e)
  {
    assert (es + [e])[..|es|] == es;
  }

  lemma OpensAndCloses(es: seq<Event>, tag: Tag, body: seq<Event>, open: seq<Frame>, frame: Frame)
    requires OpenAfter(es + [Start(tag)]) == OpenAfter(es + [Start(tag)] + body) == Some(open + [frame])
    requires SameKind(frame.tag, tag)
    ensures OpenAfter(es + ([Start(tag)] + body + [End(tag)])) == Some(open)
  {
    OpenOneMore(es + [Start(tag)] + body, End(tag));
    Regroup(es, [Start(tag)], body);
    Regroup(es, [Start(tag)] + body, [End(tag)]);
    assert (open + [frame])[..|open|] == open;
  }

  lemma {:induction false} NodeNests(es: seq<Event>, n: Node)
    requires OpenAfter(es).Some? && Proper(n)
    ensures OpenAfter(es + Events(n)) == OpenAfter(es)
    decreases n, 0
  {
    var open := OpenAfter(es).value;
    match n
    case Leaf(e) => OpenOneMore(es, e);
    case Element(tag, children) =>
      OpenOneMore(es, Start(tag));
      NodesNest(es + [Start(tag)], children);
      OpensAndCloses(es, tag, AllEvents(children), open, Frame(tag, 0));
    case Listing(start, items) => ListNests(es, start, items);
  }

  lemma {:induction false} NodesNest(es: seq<Event>, ns: seq<Node>)
    requires OpenAfter(es).Some? && AllProper(ns)
    ensures OpenAfter(es + AllEvents(ns)) == OpenAfter(es)
    decreases ns, 1
  {
    if ns == [] {
      assert es + AllEvents(ns) == es;
    } else {
      NodeNests(es, ns[0]);
      NodesNest(es + Events(ns[0]), ns[1..]);
      Regroup(es, Events(ns[0]), AllEvents(ns[1..]));
    }
  }

  lemma {:induction false} ListNests(es: seq<Event>, start: Option<nat>, items: seq<ListItem>)
    requires OpenAfter(es).Some? && forall i :: 0 <= i < |items| ==> AllProper(items[i].content)
    ensures OpenAfter(es + Events(Listing(start, items))) == OpenAfter(es)
    decreases items, 2
  {
    var open, tag := OpenAfter(es).value, List(start);
    OpenOneMore(es, Start(tag));
    ItemsNest(es + [Start(tag)], open, start, 0, items);
    Regroup(es, [Start(tag)], ItemEvents(items));
    OpenOneMore(es + [Start(tag)] + ItemEvents(items), End(tag));
    Regroup(es, [Start(tag)] + ItemEvents(items), [End(tag)]);
    assert (open + [Frame(tag, |items|)])[..|open|] == open;
  }

  lemma {:induction false} ItemNests(es: seq<Event>, open: seq<Frame>, start: Option<nat>, k: nat, item: ListItem)
    requires OpenAfter(es) == Some(open + [Frame(List(start), k)]) && AllProper(item.content)
    ensures OpenAfter(es + ([Start(Item)] + AllEvents(item.content) + [End(Item)])) ==
            Some(open + [Frame(List(start), k + 1)])
    decreases item, 2
  {
    var counted := open + [Frame(List(start), k + 1)];
    OpenOneMore(es, Start(Item));
    ReplaceLast(open, Frame(List(start), k), Frame(List(start), k + 1));
    NodesNest(es + [Start(Item)], item.content);
    OpensAndCloses(es, Item, AllEvents(item.content), counted, Frame(Item, 0));
  }

  lemma {:induction false} ItemsNest(
      es: seq<Event>, open: seq<Frame>, start: Option<nat>, k: nat, items: seq<ListItem>)
    requires OpenAfter(es) == Some(open + [Frame(List(start), k)])
    requires forall i :: 0 <= i < |items| ==> AllProper(items[i].content)
    ensures OpenAfter(es + ItemEvents(items)) == Some(open + [Frame(List(start), k + |items|)])
    decreases items, 1
  {
    if items == [] {
      assert es + ItemEvents(items) == es;
    } else {
      var first := [Start(Item)] + AllEvents(items[0].content) + [End(Item)];
      ItemNests(es, open, start, k, items[0]);
      ItemsNest(es + first, open, start, k + 1, items[1..]);
      Regroup(es, first, ItemEvents(items[1..]));
    }
  }

  /** The events of every document open and close their tags in turn, at every point of it. */
  lemma DocumentsNest(doc: seq<Node>)
    requires AllProper(doc)
    ensures OpenAfter(AllEvents(doc)) == Some([])
  {
    NodesNest([], doc);
    assert [] + AllEvents(doc) == AllEvents(doc);
  }

  // ---- The writer adds no leading newline ----

  predicate Polite(e: Event) { (e.Text? || e.Html?) && e.text != "" ==> e.text[0] != '\n' }

  lemma {:induction false} EscapingKeepsHead(s: string, body: bool)
    requires s != ""
    ensures Escape(s, body) != "" && (Escape(s, body)[0] == '\n' <==> s[0] == '\n')
  {
    if |s| > 1 { EscapingKeepsHead(s[..|s| - 1], body); } else { assert s[..0] == ""; }
  }

  predicate StartsInNewline(s: string) { s != "" && s[0] == '\n' }

  lemma PrefixHasNoNewline(level: nat)
    ensures !StartsInNewline(QuotePrefix(level))
  {
    assert level > 0 ==> Repeat(">", level) == ">" + Repeat(">", level - 1);
  }

  lemma JoinHasNoNewline(a: string, b: string)
    requires !StartsInNewline(a) && !StartsInNewline(b)
    ensures !StartsInNewline(a + b)
  {
  }

  lemma IndentHasNoNewline(n: nat)
    ensures !StartsInNewline(Repeat("   ", n))
  {
    assert n > 0 ==> Repeat("   ", n) == "   " + Repeat("   ", n - 1);
  }

  lemma StartAddsNoLeadingNewline(s: Sheet, tag: Tag)
    requires SheetStart(s, tag).Some? && !StartsInNewline(s.out)
    ensures !StartsInNewline(SheetStart(s, tag).value.out)
  {
    match tag
    case Item =>
      var n := |s.lists| - 1;
      IndentHasNoNewline(n);
      MarkerHasNoNewline(s.lists[n]);
      JoinHasNoNewline(FreshLine(s.out), Repeat("   ", n));
      JoinHasNoNewline(FreshLine(s.out) + Repeat("   ", n), Marker(s.lists[n]));
    case Paragraph =>
      PrefixHasNoNewline(s.quoteLevel);
      JoinHasNoNewline(FreshLine(s.out), QuotePrefix(s.quoteLevel));
    case Fenced(language) => assert (s.out + "```" + language + "\n")[0] == (s.out + "```")[0];
    case _ =>
  }

  lemma EndAddsNoLeadingNewline(s: Sheet, tag: Tag)
    requires SheetEnd(s, tag).Some? && !StartsInNewline(s.out)
    ensures !StartsInNewline(SheetEnd(s, tag).value.out)
  {
    match tag
    case Paragraph =>
      PrefixHasNoNewline(s.quoteLevel);
      JoinHasNoNewline(FreshLine(s.out), QuotePrefix(s.quoteLevel));
    case _ =>
  }

  lemma StepAddsNoLeadingNewline(s: Sheet, e: Event)
    requires SheetStep(s, e).Some? && Polite(e) && !StartsInNewline(s.out)
    ensures !StartsInNewline(SheetStep(s, e).value.out)
  {
    match e
    case Start(tag) => StartAddsNoLeadingNewline(s, tag);
    case End(tag) => EndAddsNoLeadingNewline(s, tag);
    case Text(text) => if text != "" { EscapingKeepsHead(text, true); }
    case Html(text) => if text != "" { EscapingKeepsHead(text, false); }
    case Break =>
      PrefixHasNoNewline(s.quoteLevel);
      JoinHasNoNewline(Newline(s.out), QuotePrefix(s.quoteLevel));
    case _ =>
  }

  lemma {:induction false} DecimalHasNoNewline(n: nat)
    ensures Decimal(n)[0] != '\n'
  {
    if n >= 10 { DecimalHasNoNewline(n / 10); }
  }

  lemma MarkerHasNoNewline(index: Option<nat>)
    ensures !StartsInNewline(Marker(index)) && Marker(index) != ""
  {
    if index.Some? { DecimalHasNoNewline(index.value); }
  }

  /** Unless a text of the document starts with one, no output starts with a newline. */
  lemma {:induction false} NoLeadingNewline(es: seq<Event>)
    requires forall i :: 0 <= i < |es| ==> Polite(es[i])
    ensures var s := SheetRun(Sheet("", [], None, 0), es); s.Some? ==> !StartsInNewline(s.value.out)
  {
    if es != [] {
      NoLeadingNewline(es[..|es| - 1]);
      var before := SheetRun(Sheet("", [], None, 0), es[..|es| - 1]);
      if before.Some? && SheetStep(before.value, es[|es| - 1]).Some? {
        StepAddsNoLeadingNewline(before.value, es[|es| - 1]);
      }
    }
  }
}
