/**
 * BibTeXMLEntry: HTML for one BibTeXML entry. The entry's child elements
 * are tried kind by kind in a fixed order and the first child of the first
 * kind present is formatted; missing fields take per-field defaults.
 */
module BibTeXML {
  import opened Wrappers
  import opened JavaLang

  /** A field element of an entry child: its local name and text value. */
  datatype Field = Field(name: string, value: string)

  /** A child element of the entry: its kind (local name) and its field elements, in document order. */
  datatype Child = Child(kind: string, fields: seq<Field>)

  /** An entry element: its `id` attribute (null when absent) and its children, in document order. */
  datatype Entry = Entry(id: Option<string>, children: seq<Child>)

  /** The kinds toHTML tries, in order. */
  const KINDS: seq<string> := ["article", "inbook", "phdthesis", "book", "misc", "techreport"]

  // The literals the formatters append, one constant per literal.
  const UNKNOWN_TYPE := "Unknown BibTeXML type: "
  const TITLE_OPEN := ", <i>"
  const TITLE_CLOSE := "</i>, "
  const TITLE_END := "</i>"
  const YEAR_OPEN_SEP := ", <b>"
  const YEAR_OPEN := "<b>"
  const YEAR_CLOSE := "</b>, "
  const COLON := ":"
  const CHAPTER := ", Ch. "
  const EDITORS := ", Eds. "
  const DOI_LINK := ", doi:<a href=\"http://dx.doi.org/"
  const SEP := ", "
  const LINK := "<a href=\""
  const LINK_TEXT := "\">"
  const LINK_END := "</a>"

  // ---------------------------------------------------------------------------
  // The queries

  /** The children of the given kind, in document order (the "./b:kind" query). */
  function Query(children: seq<Child>, kind: string): (r: seq<Child>)
    ensures forall c :: c in r <==> c in children && c.kind == kind
    ensures r == [] <==> forall i | 0 <= i < |children| :: children[i].kind != kind
  {
    if children == [] then []
    else
      var rest := Query(children[1..], kind);
      assert children == [children[0]] + children[1..];
      if children[0].kind == kind then [children[0]] + rest else rest
  }

  /** The query keeps document order: its first result is the first child of that kind. */
  lemma {:induction false} QueryFirst(children: seq<Child>, kind: string, i: nat)
    requires i < |children| && children[i].kind == kind
    requires forall j | 0 <= j < i :: children[j].kind != kind
    ensures Query(children, kind) != [] && Query(children, kind)[0] == children[i]
  {
    if i > 0 {
      QueryFirst(children[1..], kind, i - 1);
    }
  }

  /** getString: the value of the first field with this name, else the default. */
  function GetString(child: Child, name: string, def: Option<string>): (r: Option<string>)
    ensures (forall i | 0 <= i < |child.fields| :: child.fields[i].name != name) ==> r == def
    ensures (exists i | 0 <= i < |child.fields| :: child.fields[i].name == name) ==>
      exists i | 0 <= i < |child.fields| ::
        && child.fields[i].name == name && r == Some(child.fields[i].value)
        && forall j | 0 <= j < i :: child.fields[j].name != name
  {
    FieldFrom(child.fields, name, def)
  }

  function FieldFrom(fields: seq<Field>, name: string, def: Option<string>): (r: Option<string>)
    ensures (forall i | 0 <= i < |fields| :: fields[i].name != name) ==> r == def
    ensures (exists i | 0 <= i < |fields| :: fields[i].name == name) ==>
      exists i | 0 <= i < |fields| ::
        && fields[i].name == name && r == Some(fields[i].value)
        && forall j | 0 <= j < i :: fields[j].name != name
  {
    if fields == [] then def
    else if fields[0].name == name then
      Some(fields[0].value)
    else
      var r := FieldFrom(fields[1..], name, def);
      assert forall i | 1 <= i < |fields| :: fields[i] == fields[1..][i - 1];
      r
  }

  /** getString with a non-null default. */
  function Text(child: Child, name: string, def: string): string {
    GetString(child, name, Some(def)).value
  }

  // ---------------------------------------------------------------------------
  // The layouts

  /** optionallyAppendDOI's text: nothing for a null DOI, else a dx.doi.org link. */
  function DoiSuffix(doi: Option<string>): string {
    match doi
    case None => ""
    case Some(d) => DOI_LINK + d + LINK_TEXT + d + LINK_END
  }

  /** formatTechReport's URL link: nothing for a null URL. */
  function UrlSuffix(url: Option<string>): string {
    match url
    case None => ""
    case Some(u) => SEP + LINK + u + LINK_TEXT + u + LINK_END
  }

  function ArticleBody(authors: string, title: string, journal: string, year: string,
                       volume: string, pages: string): string {
    authors + TITLE_OPEN + title + TITLE_CLOSE
    + journal + YEAR_OPEN_SEP + year + YEAR_CLOSE
    + volume + COLON + pages
  }

  function ArticleHtml(authors: string, title: string, journal: string, year: string,
                       volume: string, pages: string, doi: Option<string>): string {
    ArticleBody(authors, title, journal, year, volume, pages) + DoiSuffix(doi)
  }

  function InBookBody(authors: string, title: string, chapter: string, year: string, volume: string,
                      series: string, editor: string, pages: string): string {
    authors + TITLE_OPEN + title + TITLE_CLOSE
    + series + CHAPTER + chapter
    + YEAR_OPEN_SEP + year + YEAR_CLOSE
    + volume + COLON + pages
    + EDITORS + editor
  }

  function InBookHtml(authors: string, title: string, chapter: string, year: string, volume: string,
                      series: string, editor: string, pages: string, doi: Option<string>): string {
    InBookBody(authors, title, chapter, year, volume, series, editor, pages) + DoiSuffix(doi)
  }

  function MiscHtml(authors: string, title: string): string {
    authors + TITLE_OPEN + title + TITLE_END
  }

  function ThesisHtml(authors: string, title: string, year: string, institute: string): string {
    authors + TITLE_OPEN + title + TITLE_CLOSE
    + YEAR_OPEN + year + YEAR_CLOSE
    + institute
  }

  function BookHtml(authors: string, title: string, year: string, publisher: string): string {
    authors + TITLE_OPEN + title + TITLE_CLOSE
    + YEAR_OPEN + year + YEAR_CLOSE
    + publisher
  }

  function TechReportBody(authors: string, title: string, year: string, institution: string): string {
    authors + TITLE_OPEN + title + TITLE_CLOSE
    + YEAR_OPEN + year + YEAR_CLOSE
    + institution
  }

  function TechReportHtml(authors: string, title: string, year: string, institution: string,
                          url: Option<string>): string {
    var body := TechReportBody(authors, title, year, institution);
    match url
    case None => body
    case Some(u) => body + SEP + LINK + u + LINK_TEXT + u + LINK_END
  }

  // Each kind's layout of a child, with toHTML's default for every missing field.

  function ArticleOf(c: Child): string {
    ArticleHtml(Text(c, "author", "?Authors?"), Text(c, "title", "?Title?"), Text(c, "journal", "?Journal?"),
                Text(c, "year", "19??"), Text(c, "volume", "?"), Text(c, "pages", "?-?"),
                GetString(c, "doi", None))
  }

  function InBookOf(c: Child): string {
    InBookHtml(Text(c, "author", "?Authors?"), Text(c, "title", "?Title?"), Text(c, "chapter", "?chapter?"),
               Text(c, "year", "19??"), Text(c, "volume", "?"), Text(c, "series", "?In Series?"),
               Text(c, "editor", "?Editors?"), Text(c, "pages", "?-?"), GetString(c, "doi", None))
  }

  function ThesisOf(c: Child): string {
    ThesisHtml(Text(c, "author", "?Authors?"), Text(c, "title", "?Title?"), Text(c, "year", "19??"),
               Text(c, "adress", "?Institute?"))
  }

  function BookOf(c: Child): string {
    BookHtml(Text(c, "author", "?Authors?"), Text(c, "title", "?Title?"), Text(c, "year", "19??"),
             Text(c, "publisher", "?Publisher?"))
  }

  function MiscOf(c: Child): string {
    MiscHtml(Text(c, "author", "?Authors?"), Text(c, "title", "?Title?"))
  }

  function TechReportOf(c: Child): string {
    TechReportHtml(Text(c, "author", "?Authors?"), Text(c, "title", "?Title?"), Text(c, "year", "19??"),
                   Text(c, "institution", "?Institute?"), GetString(c, "url", None))
  }

  /** The layout toHTML produces for a child of kind KINDS[k]. */
  function FormatChild(k: nat, c: Child): string
    requires k < |KINDS|
  {
    if k == 0 then ArticleOf(c)
    else if k == 1 then InBookOf(c)
    else if k == 2 then ThesisOf(c)
    else if k == 3 then BookOf(c)
    else if k == 4 then MiscOf(c)
    else TechReportOf(c)
  }

  /** The text for an entry of none of the six kinds: its id attribute, or "null" without one. */
  function UnknownHtml(id: Option<string>): string {
    UNKNOWN_TYPE + JStr(id)
  }

  /** The HTML for entry, trying KINDS[from..] in order. */
  function HtmlFrom(entry: Entry, from: nat): string
    requires from <= |KINDS|
    decreases |KINDS| - from
  {
    if from == |KINDS| then UnknownHtml(entry.id)
    else
      var results := Query(entry.children, KINDS[from]);
      if results != [] then FormatChild(from, results[0]) else HtmlFrom(entry, from + 1)
  }

  /** A kind with children decides the layout: the first of them is formatted. */
  lemma HtmlHit(entry: Entry, from: nat)
    requires from < |KINDS| && Query(entry.children, KINDS[from]) != []
    ensures HtmlFrom(entry, from) == FormatChild(from, Query(entry.children, KINDS[from])[0])
  {
  }

  /** A kind without children passes on to the next kind. */
  lemma HtmlSkip(entry: Entry, from: nat)
    requires from < |KINDS| && Query(entry.children, KINDS[from]) == []
    ensures HtmlFrom(entry, from) == HtmlFrom(entry, from + 1)
  {
  }

  /** toHTML's result. */
  function HtmlOf(entry: Entry): string {
    HtmlFrom(entry, 0)
  }

  // ---------------------------------------------------------------------------
  // Properties of the layouts

  /**
   * The first kind in the fixed order that the entry has decides the layout,
   * and its first child in document order is the one formatted.
   */
  lemma {:induction false} DispatchOrder(entry: Entry, k: nat)
    requires k < |KINDS|
    requires exists c | c in entry.children :: c.kind == KINDS[k]
    requires forall j, c | 0 <= j < k && c in entry.children :: c.kind != KINDS[j]
    ensures HtmlOf(entry) == FormatChild(k, Query(entry.children, KINDS[k])[0])
  {
    DispatchFrom(entry, 0, k);
  }

  lemma {:induction false} DispatchFrom(entry: Entry, from: nat, k: nat)
    requires from <= k < |KINDS|
    decreases k - from
    requires exists c | c in entry.children :: c.kind == KINDS[k]
    requires forall j, c | from <= j < k && c in entry.children :: c.kind != KINDS[j]
    ensures HtmlFrom(entry, from) == FormatChild(k, Query(entry.children, KINDS[k])[0])
  {
    if from < k {
      assert Query(entry.children, KINDS[from]) == [];
      HtmlSkip(entry, from);
      DispatchFrom(entry, from + 1, k);
    } else {
      var c :| c in entry.children && c.kind == KINDS[k];
      assert c in Query(entry.children, KINDS[k]);
      HtmlHit(entry, k);
    }
  }

  /** An entry with none of the six kinds gives "Unknown BibTeXML type: " and its id (or "null"). */
  lemma UnknownKind(entry: Entry)
    requires forall c | c in entry.children :: c.kind !in KINDS
    ensures HtmlOf(entry) == UnknownHtml(entry.id)
  {
    UnknownFrom(entry, 0);
  }

  lemma {:induction false} UnknownFrom(entry: Entry, from: nat)
    requires from <= |KINDS|
    decreases |KINDS| - from
    requires forall c | c in entry.children :: c.kind !in KINDS
    ensures HtmlFrom(entry, from) == UnknownHtml(entry.id)
  {
    if from < |KINDS| {
      assert Query(entry.children, KINDS[from]) == [];
      HtmlSkip(entry, from);
      UnknownFrom(entry, from + 1);
    }
  }

  /** An article that has no fields is printed with every default, and without a DOI link. */
  lemma ArticleDefaults(entry: Entry)
    requires Child("article", []) in entry.children
    requires forall c | c in entry.children :: c.kind == "article" ==> c.fields == []
    ensures HtmlOf(entry) == ArticleHtml("?Authors?", "?Title?", "?Journal?", "19??", "?", "?-?", None)
  {
    DispatchOrder(entry, 0);
    var first := Query(entry.children, "article")[0];
    assert first in Query(entry.children, KINDS[0]);
  }

  /** Without a DOI the article and inbook layouts end with their last field; a DOI only appends its link. */
  lemma DoiOnlyAppends(authors: string, title: string, journal: string, chapter: string, year: string,
                       volume: string, series: string, editor: string, pages: string, doi: string)
    ensures ArticleHtml(authors, title, journal, year, volume, pages, None)
         == ArticleBody(authors, title, journal, year, volume, pages)
    ensures ArticleHtml(authors, title, journal, year, volume, pages, Some(doi))
         == ArticleHtml(authors, title, journal, year, volume, pages, None) + DoiSuffix(Some(doi))
    ensures InBookHtml(authors, title, chapter, year, volume, series, editor, pages, None)
         == InBookBody(authors, title, chapter, year, volume, series, editor, pages)
    ensures InBookHtml(authors, title, chapter, year, volume, series, editor, pages, Some(doi))
         == InBookHtml(authors, title, chapter, year, volume, series, editor, pages, None) + DoiSuffix(Some(doi))
  {
    var article := ArticleBody(authors, title, journal, year, volume, pages);
    assert article + "" == article;
    var inbook := InBookBody(authors, title, chapter, year, volume, series, editor, pages);
    assert inbook + "" == inbook;
  }

  /** A technical report without a URL ends with the institution; a URL only appends its link. */
  lemma UrlOnlyAppends(authors: string, title: string, year: string, institution: string, url: string)
    ensures TechReportHtml(authors, title, year, institution, None) == TechReportBody(authors, title, year, institution)
    ensures TechReportHtml(authors, title, year, institution, Some(url))
         == TechReportHtml(authors, title, year, institution, None) + UrlSuffix(Some(url))
  {
    var body := TechReportBody(authors, title, year, institution);
    calc {
      TechReportHtml(authors, title, year, institution, Some(url));
      body + SEP + LINK + url + LINK_TEXT + url + LINK_END;
      { ConcatAssoc(body, [SEP, LINK, url, LINK_TEXT, url, LINK_END]); }
      body + (SEP + LINK + url + LINK_TEXT + url + LINK_END);
    }
  }

  /** a + p0 + ... + pn, nested to the left, is a + (p0 + ... + pn). */
  lemma {:induction false} ConcatAssoc(a: string, pieces: seq<string>)
    requires pieces != []
    ensures AppendAll(a, pieces) == a + AppendAll(pieces[0], pieces[1..])
  {
    if |pieces| > 1 {
      var init := pieces[..|pieces| - 1];
      ConcatAssoc(a, init);
      assert init[1..] == pieces[1..][..|pieces[1..]| - 1];
    }
  }

  /** The left-nested concatenation of h and then each of the pieces in turn. */
  function AppendAll(h: string, pieces: seq<string>): string {
    if pieces == [] then h else AppendAll(h, pieces[..|pieces| - 1]) + pieces[|pieces| - 1]
  }

  // ---------------------------------------------------------------------------
  // The formatter

  /** optionallyAppendDOI: appends the DOI link to the caller's buffer, or nothing for a null DOI. */
  method OptionallyAppendDOI(doi: Option<string>, buffer: StringBuffer)
    modifies buffer
    ensures buffer.text == old(buffer.text) + DoiSuffix(doi)
  {
    if doi.None? {
      return;
    }
    buffer.Append(DOI_LINK);
    buffer.Append(doi.value);
    buffer.Append(LINK_TEXT);
    buffer.Append(doi.value);
    buffer.Append(LINK_END);
  }

  method FormatInBook(authors: string, title: string, chapter: string, year: string, volume: string,
                      series: string, editor: string, pages: string, doi: Option<string>) returns (s: string)
    ensures s == InBookHtml(authors, title, chapter, year, volume, series, editor, pages, doi)
  {
    var buffer := new StringBuffer();
    buffer.Append(authors);
    assert buffer.text == authors;
    buffer.Append(TITLE_OPEN); buffer.Append(title); buffer.Append(TITLE_CLOSE);
    buffer.Append(series); buffer.Append(CHAPTER); buffer.Append(chapter);
    buffer.Append(YEAR_OPEN_SEP); buffer.Append(year); buffer.Append(YEAR_CLOSE);
    buffer.Append(volume); buffer.Append(COLON); buffer.Append(pages);
    buffer.Append(EDITORS); buffer.Append(editor);
    assert buffer.text == InBookBody(authors, title, chapter, year, volume, series, editor, pages);
    OptionallyAppendDOI(doi, buffer);
    s := buffer.ToString();
  }

  method FormatArticle(authors: string, title: string, journal: string, year: string,
                       volume: string, pages: string, doi: Option<string>) returns (s: string)
    ensures s == ArticleHtml(authors, title, journal, year, volume, pages, doi)
  {
    var buffer := new StringBuffer();
    buffer.Append(authors);
    assert buffer.text == authors;
    buffer.Append(TITLE_OPEN); buffer.Append(title); buffer.Append(TITLE_CLOSE);
    buffer.Append(journal); buffer.Append(YEAR_OPEN_SEP); buffer.Append(year); buffer.Append(YEAR_CLOSE);
    buffer.Append(volume); buffer.Append(COLON); buffer.Append(pages);
    assert buffer.text == ArticleBody(authors, title, journal, year, volume, pages);
    OptionallyAppendDOI(doi, buffer);
    s := buffer.ToString();
  }

  method FormatMisc(authors: string, title: string) returns (s: string)
    ensures s == MiscHtml(authors, title)
  {
    var buffer := new StringBuffer();
    buffer.Append(authors);
    assert buffer.text == authors;
    buffer.Append(TITLE_OPEN); buffer.Append(title); buffer.Append(TITLE_END);
    s := buffer.ToString();
  }

  method FormatThesis(authors: string, title: string, year: string, institute: string) returns (s: string)
    ensures s == ThesisHtml(authors, title, year, institute)
  {
    var buffer := new StringBuffer();
    buffer.Append(authors);
    assert buffer.text == authors;
    buffer.Append(TITLE_OPEN); buffer.Append(title); buffer.Append(TITLE_CLOSE);
    buffer.Append(YEAR_OPEN); buffer.Append(year); buffer.Append(YEAR_CLOSE);
    buffer.Append(institute);
    s := buffer.ToString();
  }

  method FormatBook(authors: string, title: string, year: string, publisher: string) returns (s: string)
    ensures s == BookHtml(authors, title, year, publisher)
  {
    var buffer := new StringBuffer();
    buffer.Append(authors);
    assert buffer.text == authors;
    buffer.Append(TITLE_OPEN); buffer.Append(title); buffer.Append(TITLE_CLOSE);
    buffer.Append(YEAR_OPEN); buffer.Append(year); buffer.Append(YEAR_CLOSE);
    buffer.Append(publisher);
    s := buffer.ToString();
  }

  method FormatTechReport(authors: string, title: string, year: string, institution: string,
                          url: Option<string>) returns (s: string)
    ensures s == TechReportHtml(authors, title, year, institution, url)
  {
    var buffer := new StringBuffer();
    buffer.Append(authors);
    assert buffer.text == authors;
    buffer.Append(TITLE_OPEN); buffer.Append(title); buffer.Append(TITLE_CLOSE);
    buffer.Append(YEAR_OPEN); buffer.Append(year); buffer.Append(YEAR_CLOSE);
    buffer.Append(institution);
    assert buffer.text == TechReportBody(authors, title, year, institution);
    if url.Some? {
      buffer.Append(SEP); buffer.Append(LINK); buffer.Append(url.value);
      buffer.Append(LINK_TEXT); buffer.Append(url.value); buffer.Append(LINK_END);
    }
    s := buffer.ToString();
  }

  // The body of each of toHTML's loops: one kind's fields, with their defaults, formatted.

  method ArticleToHTML(article: Child) returns (html: string)
    ensures html == ArticleOf(article)
  {
    html := FormatArticle(Text(article, "author", "?Authors?"), Text(article, "title", "?Title?"),
                          Text(article, "journal", "?Journal?"), Text(article, "year", "19??"),
                          Text(article, "volume", "?"), Text(article, "pages", "?-?"),
                          GetString(article, "doi", None));
  }

  method InBookToHTML(inbook: Child) returns (html: string)
    ensures html == InBookOf(inbook)
  {
    html := FormatInBook(Text(inbook, "author", "?Authors?"), Text(inbook, "title", "?Title?"),
                         Text(inbook, "chapter", "?chapter?"), Text(inbook, "year", "19??"),
                         Text(inbook, "volume", "?"), Text(inbook, "series", "?In Series?"),
                         Text(inbook, "editor", "?Editors?"), Text(inbook, "pages", "?-?"),
                         GetString(inbook, "doi", None));
  }

  method ThesisToHTML(thesis: Child) returns (html: string)
    ensures html == ThesisOf(thesis)
  {
    html := FormatThesis(Text(thesis, "author", "?Authors?"), Text(thesis, "title", "?Title?"),
                         Text(thesis, "year", "19??"), Text(thesis, "adress", "?Institute?"));
  }

  method BookToHTML(book: Child) returns (html: string)
    ensures html == BookOf(book)
  {
    html := FormatBook(Text(book, "author", "?Authors?"), Text(book, "title", "?Title?"),
                       Text(book, "year", "19??"), Text(book, "publisher", "?Publisher?"));
  }

  method MiscToHTML(misc: Child) returns (html: string)
    ensures html == MiscOf(misc)
  {
    html := FormatMisc(Text(misc, "author", "?Authors?"), Text(misc, "title", "?Title?"));
  }

  method TechReportToHTML(techreport: Child) returns (html: string)
    ensures html == TechReportOf(techreport)
  {
    html := FormatTechReport(Text(techreport, "author", "?Authors?"), Text(techreport, "title", "?Title?"),
                             Text(techreport, "year", "19??"), Text(techreport, "institution", "?Institute?"),
                             GetString(techreport, "url", None));
  }

  /**
   * toHTML: each kind's query in turn; the first result of the first
   * non-empty one is formatted. Each of the source's loops over a query's
   * results returns in its first iteration, so each is the test below.
   */
  method ToHTML(entry: Entry) returns (html: string)
    ensures html == HtmlOf(entry)
  {
    var results := Query(entry.children, KINDS[0]);
    if |results| > 0 {
      HtmlHit(entry, 0);
      html := ArticleToHTML(results[0]);
      return;
    }
    HtmlSkip(entry, 0);
    results := Query(entry.children, KINDS[1]);
    if |results| > 0 {
      HtmlHit(entry, 1);
      html := InBookToHTML(results[0]);
      return;
    }
    HtmlSkip(entry, 1);
    results := Query(entry.children, KINDS[2]);
    if |results| > 0 {
      HtmlHit(entry, 2);
      html := ThesisToHTML(results[0]);
      return;
    }
    HtmlSkip(entry, 2);
    results := Query(entry.children, KINDS[3]);
    if |results| > 0 {
      HtmlHit(entry, 3);
      html := BookToHTML(results[0]);
      return;
    }
    HtmlSkip(entry, 3);
    results := Query(entry.children, KINDS[4]);
    if |results| > 0 {
      HtmlHit(entry, 4);
      html := MiscToHTML(results[0]);
      return;
    }
    HtmlSkip(entry, 4);
    results := Query(entry.children, KINDS[5]);
    if |results| > 0 {
      HtmlHit(entry, 5);
      html := TechReportToHTML(results[0]);
      return;
    }
    HtmlSkip(entry, 5);
    html := UnknownHtml(entry.id);
  }
}
