/**
 Markdown events written out as message styling text (XEP-0393): a state machine with a
 quote level, a stack of list counters, a link slot and two flags about the output
 (crates/prose-markup/src/styling_writer.rs).
 */
module StylingWriter {
  import opened Basics
  import opened Decimals

  /** `jid`: the text after the scheme parses as a bare JID. */
  datatype Tag =
    | BlockQuote
    | Fenced(language: string)
    | Indented
    | Emphasis
    | Item
    | Link(url: string, jid: bool)
    | List(start: Option<nat>)
    | Strikethrough
    | Strong
    | Paragraph
    | Heading
    | Plain  // footnotes, images, tables, HTML and metadata blocks: no markup of their own

  datatype Event =
    | Start(tag: Tag)
    | End(tag: Tag)  // an end event only tells the kind of tag; the rest of `tag` is not looked at
    | Code(text: string)
    | Text(text: string)
    | Html(text: string)
    | Break
    | Rule
    | Ignored

  datatype LinkState = LinkState(url: string, reference: bool)

  datatype Writer = Writer(out: string, atStart: bool, endNewline: bool, lists: seq<Option<nat>>,
                           link: Option<LinkState>, quoteLevel: nat)

  const FRESH := Writer("", true, false, [], None, 0)

  // ---- Writing ----

  function Repeat(s: string, n: nat): string { if n == 0 then "" else s + Repeat(s, n - 1) }

  function EscapeBodyChar(c: char): string {
    if c == '<' then "&lt;" else if c == '>' then "&gt;" else if c == '&' then "&amp;" else [c]
  }

  function EscapeChar(c: char): string {
    if c == '"' then "&quot;" else if c == '\'' then "&#x27;" else EscapeBodyChar(c)
  }

  function Escape(s: string, body: bool): string {
    if s == "" then ""
    else Escape(s[..|s| - 1], body) + if body then EscapeBodyChar(s[|s| - 1]) else EscapeChar(s[|s| - 1])
  }

  predicate EndsInNewline(s: string) { s != "" && s[|s| - 1] == '\n' }

  /** All three writes look at the unescaped text to set the flags. */
  function Put(w: Writer, written: string, source: string): Writer {
    if source == "" then w.(out := w.out + written)
    else w.(out := w.out + written, atStart := false, endNewline := EndsInNewline(source))
  }

  function Write(w: Writer, s: string): Writer { Put(w, s, s) }
  function WriteHtml(w: Writer, s: string): Writer { Put(w, Escape(s, false), s) }
  function WriteHtmlBody(w: Writer, s: string): Writer { Put(w, Escape(s, true), s) }
  function WriteNewline(w: Writer): Writer { if w.atStart then w else Write(w, "\n") }
  function WriteFreshLine(w: Writer): Writer { if w.endNewline then w else WriteNewline(w) }

  function WriteQuotePrefix(w: Writer): Writer {
    var v := Write(w, Repeat(">", w.quoteLevel));
    if w.quoteLevel > 0 then Write(v, " ") else v
  }

  function Marker(index: Option<nat>): string { if index.Some? then Decimal(index.value) + ". " else "* " }

  predicate IsReference(url: string, jid: bool) { "xmpp:" <= url && jid }

  // ---- One event; `None` stands for an arithmetic underflow ----

  function StartTag(w: Writer, tag: Tag): Option<Writer> {
    match tag
    case BlockQuote => Some(w.(quoteLevel := w.quoteLevel + 1))
    case Fenced(language) => Some(WriteNewline(Write(Write(w, "```"), language)))
    case Indented => Some(WriteNewline(Write(w, "```")))
    case Emphasis => Some(Write(w, "_"))
    case Item =>
      if w.lists == [] then None
      else
        var n := |w.lists| - 1;
        var index := w.lists[n];
        var v := if index.Some? then w.(lists := w.lists[n := Some(index.value + 1)]) else w;
        Some(Write(Write(WriteFreshLine(v), Repeat("   ", n)), Marker(index)))
    case Link(url, jid) => Some(w.(link := Some(LinkState(url, IsReference(url, jid)))))
    case List(start) =>
      var v := w.(lists := w.lists + [start]);
      Some(if w.lists == [] then v else WriteNewline(v))
    case Strikethrough => Some(Write(w, "~"))
    case Strong => Some(Write(w, "*"))
    case Paragraph => Some(WriteQuotePrefix(WriteFreshLine(w)))
    case Heading => Some(w)
    case Plain => Some(w)
  }

  function EndTag(w: Writer, tag: Tag): Option<Writer> {
    match tag
    case BlockQuote => if w.quoteLevel == 0 then None else Some(WriteFreshLine(w.(quoteLevel := w.quoteLevel - 1)))
    case Fenced(_) => Some(Write(w, "```"))
    case Indented => Some(Write(w, "```"))
    case Emphasis => Some(Write(w, "_"))
    case Item => Some(WriteFreshLine(w))
    case Link(_, _) =>
      var v := w.(link := None);
      Some(if w.link.Some? && !w.link.value.reference then Write(v, " (" + w.link.value.url + ")") else v)
    case List(_) =>
      var v := if w.lists == [] then w else w.(lists := w.lists[..|w.lists| - 1]);
      Some(if v.lists == [] then WriteNewline(v) else v)
    case Strikethrough => Some(Write(w, "~"))
    case Strong => Some(Write(w, "*"))
    case Paragraph => Some(WriteNewline(WriteQuotePrefix(WriteFreshLine(w))))
    case Heading => Some(WriteNewline(WriteNewline(w)))
    case Plain => Some(w)
  }

  function Step(w: Writer, e: Event): Option<Writer> {
    match e
    case Start(tag) => StartTag(w, tag)
    case End(tag) => EndTag(w, tag)
    case Code(text) => Some(Write(Write(Write(w, "`"), text), "`"))
    case Text(text) => Some(WriteHtmlBody(w, text))
    case Html(text) => Some(WriteHtml(w, text))
    case Break => Some(WriteQuotePrefix(WriteNewline(w)))
    case Rule => Some(Write(w, "***"))
    case Ignored => Some(w)
  }

  function Run(w: Writer, es: seq<Event>): Option<Writer> {
    if es == [] then Some(w)
    else
      var before := Run(w, es[..|es| - 1]);
      if before.None? then None else Step(before.value, es[|es| - 1])
  }

  // ---- The same machine without flags: it looks at what has been written ----

  datatype Sheet = Sheet(out: string, lists: seq<Option<nat>>, link: Option<LinkState>, quoteLevel: nat)

  /** The writer whose flags describe the sheet. */
  function WriterOf(s: Sheet): Writer {
    Writer(s.out, s.out == "", EndsInNewline(s.out), s.lists, s.link, s.quoteLevel)
  }

  /** A newline, unless it would be the first character. */
  function Newline(out: string): string { if out == "" then out else out + "\n" }
  function FreshLine(out: string): string { if EndsInNewline(out) then out else Newline(out) }
  function QuotePrefix(level: nat): string { if level > 0 then Repeat(">", level) + " " else "" }

  function SheetStart(s: Sheet, tag: Tag): Option<Sheet> {
    match tag
    case BlockQuote => Some(s.(quoteLevel := s.quoteLevel + 1))
    case Fenced(language) => Some(s.(out := s.out + "```" + language + "\n"))
    case Indented => Some(s.(out := s.out + "```" + "\n"))
    case Emphasis => Some(s.(out := s.out + "_"))
    case Item =>
      if s.lists == [] then None
      else
        var n := |s.lists| - 1;
        var index := s.lists[n];
        var next := if index.Some? then Some(index.value + 1) else None;
        Some(s.(out := FreshLine(s.out) + Repeat("   ", n) + Marker(index), lists := s.lists[n := next]))
    case Link(url, jid) => Some(s.(link := Some(LinkState(url, IsReference(url, jid)))))
    case List(start) =>
      Some(s.(lists := s.lists + [start], out := if s.lists == [] then s.out else Newline(s.out)))
    case Strikethrough => Some(s.(out := s.out + "~"))
    case Strong => Some(s.(out := s.out + "*"))
    case Paragraph => Some(s.(out := FreshLine(s.out) + QuotePrefix(s.quoteLevel)))
    case Heading => Some(s)
    case Plain => Some(s)
  }

  function LinkText(link: Option<LinkState>): string {
    if link.Some? && !link.value.reference then " (" + link.value.url + ")" else ""
  }

  function SheetEnd(s: Sheet, tag: Tag): Option<Sheet> {
    match tag
    case BlockQuote =>
      if s.quoteLevel == 0 then None else Some(s.(out := FreshLine(s.out), quoteLevel := s.quoteLevel - 1))
    case Fenced(_) => Some(s.(out := s.out + "```"))
    case Indented => Some(s.(out := s.out + "```"))
    case Emphasis => Some(s.(out := s.out + "_"))
    case Item => Some(s.(out := FreshLine(s.out)))
    case Link(_, _) => Some(s.(out := s.out + LinkText(s.link), link := None))
    case List(_) =>
      var lists := if s.lists == [] then [] else s.lists[..|s.lists| - 1];
      Some(s.(lists := lists, out := if lists == [] then Newline(s.out) else s.out))
    case Strikethrough => Some(s.(out := s.out + "~"))
    case Strong => Some(s.(out := s.out + "*"))
    case Paragraph => Some(s.(out := Newline(FreshLine(s.out) + QuotePrefix(s.quoteLevel))))
    case Heading => Some(s.(out := Newline(Newline(s.out))))
    case Plain => Some(s)
  }

  function SheetStep(s: Sheet, e: Event): Option<Sheet> {
    match e
    case Start(tag) => SheetStart(s, tag)
    case End(tag) => SheetEnd(s, tag)
    case Code(text) => Some(s.(out := s.out + "`" + text + "`"))
    case Text(text) => Some(s.(out := s.out + Escape(text, true)))
    case Html(text) => Some(s.(out := s.out + Escape(text, false)))
    case Break => Some(s.(out := Newline(s.out) + QuotePrefix(s.quoteLevel)))
    case Rule => Some(s.(out := s.out + "***"))
    case Ignored => Some(s)
  }

  function SheetRun(s: Sheet, es: seq<Event>): Option<Sheet> {
    if es == [] then Some(s)
    else
      var before := SheetRun(s, es[..|es| - 1]);
      if before.None? then None else SheetStep(before.value, es[|es| - 1])
  }

  lemma {:induction false} RunAppends(s: Sheet, a: seq<Event>, b: seq<Event>)
    ensures SheetRun(s, a + b) == if SheetRun(s, a).None? then None else SheetRun(SheetRun(s, a).value, b)
  {
    if b == [] {
      assert a + b == a;
    } else {
      RunAppends(s, a, b[..|b| - 1]);
      assert (a + b)[..|a + b| - 1] == a + b[..|b| - 1];
    }
  }

  lemma RunOne(s: Sheet, e: Event)
    ensures SheetRun(s, [e]) == SheetStep(s, e)
  {
    assert [e][..0] == [];
  }

  // ---- The flags tell the truth ----

  function EscapeOne(c: char, body: bool): string { if body then EscapeBodyChar(c) else EscapeChar(c) }

  lemma EscapeLast(s: string, c: char, body: bool)
    ensures Escape(s + [c], body) == Escape(s, body) + EscapeOne(c, body)
  {
    assert (s + [c])[..|s|] == s;
  }

  lemma EscapedCharKeepsEnd(c: char, body: bool)
    ensures EscapeOne(c, body) != "" && (EndsInNewline(EscapeOne(c, body)) <==> c == '\n')
  {
  }

  lemma EndOfJoin(a: string, b: string)
    requires b != ""
    ensures a + b != "" && (EndsInNewline(a + b) <==> EndsInNewline(b))
  {
  }

  /** Escaping neither empties a text nor hides or makes up a final newline. */
  lemma EscapingKeepsEnd(s: string, body: bool)
    ensures Escape(s, body) == "" <==> s == ""
    ensures EndsInNewline(Escape(s, body)) <==> EndsInNewline(s)
  {
    if s != "" {
      var front, c := s[..|s| - 1], s[|s| - 1];
      assert s == front + [c];
      EscapeLast(front, c, body);
      EscapedCharKeepsEnd(c, body);
      EndOfJoin(Escape(front, body), EscapeOne(c, body));
    }
  }

  /** What a reader of the escaped text sees again. */
  function Unescape(s: string): string {
    if s == "" then ""
    else if "&lt;" <= s then "<" + Unescape(s[4..])
    else if "&gt;" <= s then ">" + Unescape(s[4..])
    else if "&amp;" <= s then "&" + Unescape(s[5..])
    else if "&quot;" <= s then "\"" + Unescape(s[6..])
    else if "&#x27;" <= s then "'" + Unescape(s[6..])
    else [s[0]] + Unescape(s[1..])
  }

  lemma EscapeSingle(c: char, body: bool)
    ensures Escape([c], body) == EscapeOne(c, body)
  {
    assert [c] == "" + [c];
    EscapeLast("", c, body);
  }

  lemma EscapeStep(c: char, front: string, last: char, body: bool)
    requires Escape([c] + front, body) == EscapeOne(c, body) + Escape(front, body)
    ensures Escape([c] + (front + [last]), body) == EscapeOne(c, body) + Escape(front + [last], body)
  {
    EscapeLast(front, last, body);
    EscapeLast([c] + front, last, body);
    Regroup([c], front, [last]);
    Regroup(EscapeOne(c, body), Escape(front, body), EscapeOne(last, body));
  }

  lemma {:induction false} EscapeFirst(c: char, s: string, body: bool)
    ensures Escape([c] + s, body) == EscapeOne(c, body) + Escape(s, body)
  {
    if s == "" {
      EscapeSingle(c, body);
      assert [c] + s == [c];
    } else {
      var front := s[..|s| - 1];
      EscapeFirst(c, front, body);
      EscapeStep(c, front, s[|s| - 1], body);
      assert s == front + [s[|s| - 1]];
    }
  }

  lemma UnescapePlain(c: char, rest: string)
    requires c != '&'
    ensures Unescape([c] + rest) == [c] + Unescape(rest)
  {
    assert ([c] + rest)[0] == c && ([c] + rest)[1..] == rest;
  }

  lemma UnescapeLt(rest: string)
    ensures Unescape("&lt;" + rest) == "<" + Unescape(rest)
  {
    var s := "&lt;" + rest;
    assert s[1] == 'l' && s[..4] == "&lt;" && s[4..] == rest;
  }

  lemma UnescapeGt(rest: string)
    ensures Unescape("&gt;" + rest) == ">" + Unescape(rest)
  {
    var s := "&gt;" + rest;
    assert s[1] == 'g' && s[..4] == "&gt;" && s[4..] == rest;
  }

  lemma UnescapeAmp(rest: string)
    ensures Unescape("&amp;" + rest) == "&" + Unescape(rest)
  {
    var s := "&amp;" + rest;
    assert s[1] == 'a' && s[..5] == "&amp;" && s[5..] == rest;
  }

  lemma UnescapeQuot(rest: string)
    ensures Unescape("&quot;" + rest) == "\"" + Unescape(rest)
  {
    var s := "&quot;" + rest;
    assert s[1] == 'q' && s[..6] == "&quot;" && s[6..] == rest;
  }

  lemma UnescapeApos(rest: string)
    ensures Unescape("&#x27;" + rest) == "'" + Unescape(rest)
  {
    var s := "&#x27;" + rest;
    assert s[1] == '#' && s[..6] == "&#x27;" && s[6..] == rest;
  }

  lemma UnescapeFirst(c: char, body: bool, rest: string)
    ensures Unescape(EscapeOne(c, body) + rest) == [c] + Unescape(rest)
  {
    if EscapeOne(c, body) == [c] { UnescapePlain(c, rest); }
    else if c == '<' { UnescapeLt(rest); }
    else if c == '>' { UnescapeGt(rest); }
    else if c == '&' { UnescapeAmp(rest); }
    else if c == '"' { UnescapeQuot(rest); }
    else { UnescapeApos(rest); }
  }

  predicate NoMarkup(s: string) { forall i :: 0 <= i < |s| ==> s[i] != '<' && s[i] != '>' }

  lemma NoMarkupJoins(a: string, b: string)
    requires NoMarkup(a) && NoMarkup(b)
    ensures NoMarkup(a + b)
  {
  }

  lemma UnescapeOneMore(s: string, body: bool, escaped: string)
    requires s != "" && Unescape(escaped) == s[1..]
    ensures Unescape(EscapeOne(s[0], body) + escaped) == s
  {
    UnescapeFirst(s[0], body, escaped);
    assert [s[0]] + s[1..] == s;
  }

  lemma EscapeByHead(s: string, body: bool)
    requires s != ""
    ensures Escape(s, body) == EscapeOne(s[0], body) + Escape(s[1..], body)
  {
    assert s == [s[0]] + s[1..];
    EscapeFirst(s[0], s[1..], body);
  }

  /** Both escapes can be undone. */
  lemma {:induction false} EscapingIsReversible(s: string, body: bool)
    ensures Unescape(Escape(s, body)) == s
  {
    if s != "" {
      EscapingIsReversible(s[1..], body);
      EscapeByHead(s, body);
      UnescapeOneMore(s, body, Escape(s[1..], body));
    }
  }

  lemma EscapedCharHasNoMarkup(c: char, body: bool)
    ensures NoMarkup(EscapeOne(c, body))
  {
  }

  /** Neither leaves markup in the text. */
  lemma {:induction false} EscapingLeavesNoMarkup(s: string, body: bool)
    ensures NoMarkup(Escape(s, body))
  {
    if s != "" {
      EscapingLeavesNoMarkup(s[1..], body);
      EscapeByHead(s, body);
      EscapedCharHasNoMarkup(s[0], body);
      NoMarkupJoins(EscapeOne(s[0], body), Escape(s[1..], body));
    }
  }

  /** A character an escape has to replace. */
  predicate Special(c: char, body: bool) { c in {'<', '>', '&'} || (!body && c in {'"', '\''}) }

  lemma CharIsSpared(c: char, body: bool)
    requires !Special(c, body)
    ensures EscapeOne(c, body) == [c]
  {
  }

  /** Nothing but markup is escaped, and in HTML both quotes. */
  lemma {:induction false} EscapingSparesTheRest(s: string, body: bool)
    requires forall i :: 0 <= i < |s| ==> !Special(s[i], body)
    ensures Escape(s, body) == s
  {
    if s != "" {
      var front, c := s[..|s| - 1], s[|s| - 1];
      EscapingSparesTheRest(front, body);
      CharIsSpared(c, body);
      EscapeLast(front, c, body);
      assert s == front + [c];
    }
  }

  predicate NoQuotes(s: string) { forall i :: 0 <= i < |s| ==> s[i] != '"' && s[i] != '\'' }

  lemma NoQuotesJoin(a: string, b: string)
    requires NoQuotes(a) && NoQuotes(b)
    ensures NoQuotes(a + b)
  {
  }

  lemma EscapedCharHasNoQuotes(c: char)
    ensures NoQuotes(EscapeOne(c, false))
  {
  }

  lemma {:induction false} HtmlHasNoQuotes(s: string)
    ensures NoQuotes(Escape(s, false))
  {
    if s != "" {
      HtmlHasNoQuotes(s[1..]);
      EscapeByHead(s, false);
      EscapedCharHasNoQuotes(s[0]);
      NoQuotesJoin(EscapeOne(s[0], false), Escape(s[1..], false));
    }
  }

  // ---- What markers, indents and prefixes look like ----

  predicate All(s: string, c: char) { forall i :: 0 <= i < |s| ==> s[i] == c }

  lemma {:induction false} RepeatShows(s: string, n: nat, c: char)
    requires All(s, c)
    ensures |Repeat(s, n)| == n * |s| && All(Repeat(s, n), c)
  {
    if n > 0 { RepeatShows(s, n - 1, c); }
  }

  /** `level` angle brackets and a space, or nothing outside of quotes. */
  predicate IsQuotePrefix(p: string, level: nat) {
    if level == 0 then p == "" else |p| == level + 1 && All(p[..level], '>') && p[level] == ' '
  }

  lemma QuotePrefixShows(level: nat)
    ensures IsQuotePrefix(QuotePrefix(level), level)
  {
    RepeatShows(">", level, '>');
    if level > 0 { assert QuotePrefix(level)[..level] == Repeat(">", level); }
  }

  /** The number, a full stop and a space; a star and a space if there is no number. */
  predicate IsMarker(m: string, index: Option<nat>) {
    if index.None? then m == "* "
    else
      var n := |m| - 2;
      n > 0 && m[n..] == ". " && AllDigits(m[..n]) && Number(m[..n]) == index.value
  }

  lemma MarkerShows(index: Option<nat>)
    ensures IsMarker(Marker(index), index)
  {
    if index.Some? {
      var d := Decimal(index.value);
      DecimalRoundTrip(index.value);
      assert Marker(index)[..|d|] == d && Marker(index)[|d|..] == ". ";
    }
  }

  /** What the line of an item starts with: three spaces per enclosing list, then its marker. */
  predicate IsItemStart(line: string, depth: nat, index: Option<nat>) {
    |line| >= 3 * depth && All(line[..3 * depth], ' ') && IsMarker(line[3 * depth..], index)
  }

  lemma ItemStartShows(depth: nat, index: Option<nat>)
    ensures IsItemStart(Repeat("   ", depth) + Marker(index), depth, index)
  {
    var indent := Repeat("   ", depth);
    RepeatShows("   ", depth, ' ');
    MarkerShows(index);
    assert (indent + Marker(index))[..3 * depth] == indent && (indent + Marker(index))[3 * depth..] == Marker(index);
  }

  lemma PutIsFaithful(s: Sheet, written: string, source: string)
    requires (written == "" <==> source == "") && (EndsInNewline(written) <==> EndsInNewline(source))
    ensures Put(WriterOf(s), written, source) == WriterOf(s.(out := s.out + written))
  {
    if source == "" { assert s.out + written == s.out; }
  }

  lemma WriteIsFaithful(s: Sheet, text: string)
    ensures Write(WriterOf(s), text) == WriterOf(s.(out := s.out + text))
    ensures WriteHtml(WriterOf(s), text) == WriterOf(s.(out := s.out + Escape(text, false)))
    ensures WriteHtmlBody(WriterOf(s), text) == WriterOf(s.(out := s.out + Escape(text, true)))
  {
    PutIsFaithful(s, text, text);
    EscapingKeepsEnd(text, false);
    EscapingKeepsEnd(text, true);
    PutIsFaithful(s, Escape(text, false), text);
    PutIsFaithful(s, Escape(text, true), text);
  }

  lemma NewlineIsFaithful(s: Sheet)
    ensures WriteNewline(WriterOf(s)) == WriterOf(s.(out := Newline(s.out)))
    ensures WriteFreshLine(WriterOf(s)) == WriterOf(s.(out := FreshLine(s.out)))
  {
    WriteIsFaithful(s, "\n");
  }

  lemma PrefixIsFaithful(s: Sheet)
    ensures WriteQuotePrefix(WriterOf(s)) == WriterOf(s.(out := s.out + QuotePrefix(s.quoteLevel)))
  {
    var quotes := Repeat(">", s.quoteLevel);
    WriteIsFaithful(s, quotes);
    WriteIsFaithful(s.(out := s.out + quotes), " ");
    assert s.out + quotes + " " == s.out + (quotes + " ");
  }

  function Written(s: Option<Sheet>): Option<Writer> { if s.None? then None else Some(WriterOf(s.value)) }

  lemma ItemTextIsFaithful(t: Sheet, indent: string, marker: string)
    ensures Write(Write(WriteFreshLine(WriterOf(t)), indent), marker) ==
            WriterOf(t.(out := FreshLine(t.out) + indent + marker))
  {
    NewlineIsFaithful(t);
    var u := t.(out := FreshLine(t.out));
    WriteIsFaithful(u, indent);
    WriteIsFaithful(u.(out := u.out + indent), marker);
  }

  lemma ItemIsFaithful(s: Sheet)
    requires s.lists != []
    ensures StartTag(WriterOf(s), Item) == Written(SheetStart(s, Item))
  {
    var n, index := |s.lists| - 1, s.lists[|s.lists| - 1];
    var next := if index.Some? then Some(index.value + 1) else None;
    var w, t := WriterOf(s), s.(lists := s.lists[n := next]);
    assert index.None? ==> s.lists[n := next] == s.lists;
    assert (if index.Some? then w.(lists := w.lists[n := Some(index.value + 1)]) else w) == WriterOf(t);
    ItemTextIsFaithful(t, Repeat("   ", n), Marker(index));
  }

  lemma ParagraphIsFaithful(s: Sheet)
    ensures WriteQuotePrefix(WriteFreshLine(WriterOf(s))) ==
            WriterOf(s.(out := FreshLine(s.out) + QuotePrefix(s.quoteLevel)))
    ensures WriteNewline(WriteQuotePrefix(WriteFreshLine(WriterOf(s)))) ==
            WriterOf(s.(out := Newline(FreshLine(s.out) + QuotePrefix(s.quoteLevel))))
  {
    NewlineIsFaithful(s);
    var t := s.(out := FreshLine(s.out));
    PrefixIsFaithful(t);
    NewlineIsFaithful(t.(out := t.out + QuotePrefix(t.quoteLevel)));
  }

  lemma LinkEndIsFaithful(s: Sheet, tag: Tag)
    requires tag.Link?
    ensures EndTag(WriterOf(s), tag) == Written(SheetEnd(s, tag))
  {
    WriteIsFaithful(s.(link := None), LinkText(s.link));
    assert s.out + "" == s.out;
  }

  lemma StartIsFaithful(s: Sheet, tag: Tag)
    ensures StartTag(WriterOf(s), tag) == Written(SheetStart(s, tag))
  {
    match tag
    case Fenced(language) =>
      WriteIsFaithful(s, "```");
      WriteIsFaithful(s.(out := s.out + "```"), language);
      NewlineIsFaithful(s.(out := s.out + "```" + language));
    case Indented =>
      WriteIsFaithful(s, "```");
      NewlineIsFaithful(s.(out := s.out + "```"));
    case Emphasis => WriteIsFaithful(s, "_");
    case Item => if s.lists != [] { ItemIsFaithful(s); }
    case List(start) => NewlineIsFaithful(s.(lists := s.lists + [start]));
    case Strikethrough => WriteIsFaithful(s, "~");
    case Strong => WriteIsFaithful(s, "*");
    case Paragraph => ParagraphIsFaithful(s);
    case _ =>
  }

  lemma HeadingEndIsFaithful(s: Sheet)
    ensures EndTag(WriterOf(s), Heading) == Written(SheetEnd(s, Heading))
  {
    NewlineIsFaithful(s);
    NewlineIsFaithful(s.(out := Newline(s.out)));
  }

  lemma BlockEndIsFaithful(s: Sheet, tag: Tag)
    requires tag.BlockQuote? || tag.Item? || tag.List?
    ensures EndTag(WriterOf(s), tag) == Written(SheetEnd(s, tag))
  {
    match tag
    case BlockQuote => if s.quoteLevel > 0 { NewlineIsFaithful(s.(quoteLevel := s.quoteLevel - 1)); }
    case Item => NewlineIsFaithful(s);
    case List(_) => NewlineIsFaithful(s.(lists := if s.lists == [] then [] else s.lists[..|s.lists| - 1]));
  }

  lemma EndIsFaithful(s: Sheet, tag: Tag)
    ensures EndTag(WriterOf(s), tag) == Written(SheetEnd(s, tag))
  {
    match tag
    case Fenced(_) => WriteIsFaithful(s, "```");
    case Indented => WriteIsFaithful(s, "```");
    case Emphasis => WriteIsFaithful(s, "_");
    case Link(_, _) => LinkEndIsFaithful(s, tag);
    case Strikethrough => WriteIsFaithful(s, "~");
    case Strong => WriteIsFaithful(s, "*");
    case Paragraph => ParagraphIsFaithful(s);
    case Heading => HeadingEndIsFaithful(s);
    case Plain =>
    case _ => BlockEndIsFaithful(s, tag);
  }

  /** One event leaves the flags describing the output, through all writes and escapes. */
  lemma StepIsFaithful(s: Sheet, e: Event)
    ensures Step(WriterOf(s), e) == Written(SheetStep(s, e))
  {
    match e
    case Start(tag) => StartIsFaithful(s, tag);
    case End(tag) => EndIsFaithful(s, tag);
    case Code(text) =>
      WriteIsFaithful(s, "`");
      WriteIsFaithful(s.(out := s.out + "`"), text);
      WriteIsFaithful(s.(out := s.out + "`" + text), "`");
    case Text(text) => WriteIsFaithful(s, text);
    case Html(text) => WriteIsFaithful(s, text);
    case Break =>
      NewlineIsFaithful(s);
      PrefixIsFaithful(s.(out := Newline(s.out)));
    case Rule => WriteIsFaithful(s, "***");
    case Ignored =>
  }

  /**
   For every event stream the writer with flags does what the machine that inspects its
   output does; so "at start" means an empty output and "end newline" an output that ends in one.
   */
  lemma {:induction false} FlagsNeverLie(s: Sheet, es: seq<Event>)
    ensures Run(WriterOf(s), es) == Written(SheetRun(s, es))
  {
    if es != [] {
      FlagsNeverLie(s, es[..|es| - 1]);
      var before := SheetRun(s, es[..|es| - 1]);
      if before.Some? { StepIsFaithful(before.value, es[|es| - 1]); }
    }
  }
}
