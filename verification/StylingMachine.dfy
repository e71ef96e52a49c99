/**
 The styling writer as the object it is: one buffer and five pieces of state, updated in
 place event by event (crates/prose-markup/src/styling_writer.rs).
 */
module StylingMachine {
  import opened Basics
  import opened StylingWriter
  import opened StyledDocuments

  class MarkupWriter {
    var out: string
    var atStart: bool
    var endNewline: bool
    var lists: seq<Option<nat>>
    var link: Option<LinkState>
    var quoteLevel: nat

    function View(): Writer
      reads this
    {
      Writer(out, atStart, endNewline, lists, link, quoteLevel)
    }

    constructor ()
      ensures View() == FRESH
    {
      out, atStart, endNewline, lists, link, quoteLevel := "", true, false, [], None, 0;
    }

    method NoteWritten(source: string)
      modifies this`atStart, this`endNewline
      ensures View() == Put(old(View()), "", source)
    {
      assert out + "" == out;
      if source != "" {
        atStart := false;
        endNewline := source[|source| - 1] == '\n';
      }
    }

    method WriteText(s: string)
      modifies this`out, this`atStart, this`endNewline
      ensures View() == Write(old(View()), s)
    {
      out := out + s;
      NoteWritten(s);
    }

    /** The flags look at the unescaped text. */
    method WriteEscaped(s: string, body: bool)
      modifies this`out, this`atStart, this`endNewline
      ensures View() == if body then WriteHtmlBody(old(View()), s) else WriteHtml(old(View()), s)
    {
      out := out + Escape(s, body);
      NoteWritten(s);
    }

    method BreakLine()
      modifies this`out, this`atStart, this`endNewline
      ensures View() == WriteNewline(old(View()))
    {
      if !atStart { WriteText("\n"); }
    }

    method BeginLine()
      modifies this`out, this`atStart, this`endNewline
      ensures View() == WriteFreshLine(old(View()))
    {
      if !endNewline { BreakLine(); }
    }

    method WritePrefix()
      modifies this`out, this`atStart, this`endNewline
      ensures View() == WriteQuotePrefix(old(View()))
    {
      WriteText(Repeat(">", quoteLevel));
      if quoteLevel > 0 { WriteText(" "); }
    }

    method StartItem() returns (ok: bool)
      modifies this
      ensures ok <==> StartTag(old(View()), Item).Some?
      ensures ok ==> View() == StartTag(old(View()), Item).value
    {
      if lists == [] { return false; }
      var n := |lists| - 1;
      var index := lists[n];
      if index.Some? { lists := lists[n := Some(index.value + 1)]; }
      BeginLine();
      WriteText(Repeat("   ", n));
      WriteText(Marker(index));
      return true;
    }

    /** `ok` is false where the subtraction on the list stack underflows. */
    method Begin(tag: Tag) returns (ok: bool)
      modifies this
      ensures ok <==> StartTag(old(View()), tag).Some?
      ensures ok ==> View() == StartTag(old(View()), tag).value
    {
      ok := true;
      match tag
      case BlockQuote => quoteLevel := quoteLevel + 1;
      case Fenced(language) => WriteText("```"); WriteText(language); BreakLine();
      case Indented => WriteText("```"); BreakLine();
      case Emphasis => WriteText("_");
      case Item => ok := StartItem();
      case Link(url, jid) => link := Some(LinkState(url, IsReference(url, jid)));
      case List(start) =>
        var topLevel := lists == [];
        lists := lists + [start];
        if !topLevel { BreakLine(); }
      case Strikethrough => WriteText("~");
      case Strong => WriteText("*");
      case Paragraph => BeginLine(); WritePrefix();
      case Heading =>
      case Plain =>
    }

    method EndLink()
      modifies this
      ensures Some(View()) == EndTag(old(View()), Link("", false))
    {
      var taken := link;
      link := None;
      if taken.Some? && !taken.value.reference { WriteText(" (" + taken.value.url + ")"); }
    }

    method EndList()
      modifies this
      ensures Some(View()) == EndTag(old(View()), List(None))
    {
      if lists != [] { lists := lists[..|lists| - 1]; }
      if lists == [] { BreakLine(); }
    }

    /** `ok` is false where the quote level underflows. */
    method Finish(tag: Tag) returns (ok: bool)
      modifies this
      ensures ok <==> EndTag(old(View()), tag).Some?
      ensures ok ==> View() == EndTag(old(View()), tag).value
    {
      ok := true;
      match tag
      case BlockQuote =>
        if quoteLevel == 0 { return false; }
        quoteLevel := quoteLevel - 1;
        BeginLine();
      case Fenced(_) => WriteText("```");
      case Indented => WriteText("```");
      case Emphasis => WriteText("_");
      case Item => BeginLine();
      case Link(_, _) => EndLink();
      case List(_) => EndList();
      case Strikethrough => WriteText("~");
      case Strong => WriteText("*");
      case Paragraph => BeginLine(); WritePrefix(); BreakLine();
      case Heading => BreakLine(); BreakLine();
      case Plain =>
    }

    method Take(e: Event) returns (ok: bool)
      modifies this
      ensures ok <==> Step(old(View()), e).Some?
      ensures ok ==> View() == Step(old(View()), e).value
    {
      ok := true;
      match e
      case Start(tag) => ok := Begin(tag);
      case End(tag) => ok := Finish(tag);
      case Code(text) => WriteText("`"); WriteText(text); WriteText("`");
      case Text(text) => WriteEscaped(text, true);
      case Html(text) => WriteEscaped(text, false);
      case Break => BreakLine(); WritePrefix();
      case Rule => WriteText("***");
      case Ignored =>
    }

    method TakeAll(es: seq<Event>) returns (ok: bool)
      modifies this
      ensures ok <==> Run(old(View()), es).Some?
      ensures ok ==> View() == Run(old(View()), es).value
    {
      ok := true;
      var i := 0;
      while i < |es|
        invariant 0 <= i <= |es|
        invariant Run(old(View()), es[..i]) == Some(View())
      {
        assert es[..i + 1][..i] == es[..i];
        var taken := Take(es[i]);
        if !taken {
          FailureStays(old(View()), es, i + 1);
          return false;
        }
        i := i + 1;
      }
      assert es[..|es|] == es;
    }
  }

  /** A stream that underflows does so whatever follows. */
  lemma {:induction false} FailureStays(w: Writer, es: seq<Event>, k: nat)
    requires k <= |es| && Run(w, es[..k]).None?
    ensures Run(w, es).None?
    decreases |es|
  {
    if k == |es| {
      assert es[..k] == es;
    } else {
      assert es[..|es| - 1][..k] == es[..k];
      FailureStays(w, es[..|es| - 1], k);
    }
  }

  /** A fresh writer run over the events of a document writes the text of its tree. */
  method StyleDocument(doc: seq<Node>) returns (text: string)
    requires AllProper(doc)
    ensures text == RenderAll(doc, 0, 0, Page("", None)).out
  {
    var writer := new MarkupWriter();
    WriterRendersDocument(doc);
    var ok := writer.TakeAll(AllEvents(doc));
    text := writer.out;
  }
}
