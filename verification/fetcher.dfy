/**
  Fetching one article: the HTTP status gate of `CrawlArticle`, the walk
  over the decoded API answer in `parseResponse`, and the wrapping of the
  parsed link titles into stub articles.

  The Go code reads the answer through unchecked type assertions; a value
  of the wrong shape panics instead of returning an error. Those panics
  are kept apart from the returned errors as `Crash` outcomes, one per
  assertion.
 */
module Fetcher {
  import opened Wrappers
  import opened Json

  // ---------------------------------------------------------------------
  // parseResponse
  // ---------------------------------------------------------------------

  /** The four values `parseResponse` returns next to its error. */
  datatype Parsed = Parsed(missing: bool, description: string, links: seq<string>, pageID: int)

  /** Returned with the malformed-response error. */
  const NothingParsed := Parsed(false, "", [], 0)

  /** Returned for a page flagged missing, and with the two late errors. */
  const MissingPage := Parsed(true, "", [], 0)

  datatype ParseError =
    | MalformedResponse   // no `query`, or no `pages` inside it
    | IncorrectTitle      // a link whose `title` is absent or not a string
    | NoPage              // `pages` has no entry

  /** The error text the Go code produces for each error. */
  function Message(e: ParseError): string
  {
    match e
    case MalformedResponse => "Malformed response"
    case IncorrectTitle => "Incorrect title in answer"
    case NoPage => " No page in answer"
  }

  /** The three errors carry three different texts, so a caller reading
      the error text can tell which of them occurred. */
  lemma MessagesDistinct(e1: ParseError, e2: ParseError)
    ensures Message(e1) == Message(e2) <==> e1 == e2
  {
  }

  /** A failed type assertion, named after the value that had the wrong shape. */
  datatype Panic =
    | QueryNotObject        // `query` is not an object (fetcher.go:77)
    | PagesNotObject        // `pages` is not an object (fetcher.go:83)
    | PageNotObject         // the page entry is not an object (fetcher.go:84)
    | PageIdNotNumber       // `pageid` is not a number (fetcher.go:88)
    | DescriptionNotString  // `description` is not a string (fetcher.go:98)
    | LinksNotArray         // `links` is not an array (fetcher.go:105)
    | LinkNotObject         // an element of `links` is not an object (fetcher.go:107)

  /** What a call of `parseResponse` does: return without error, return an
      error together with the values it returns alongside, or panic. */
  datatype ParseOutcome =
    | Ok(value: Parsed)
    | Err(error: ParseError, partial: Parsed)
    | Crash(at: Panic)

  /** True when the member is absent or holds a number (the `pageid` assertion passes). */
  predicate PageIdWellTyped(page: Fields)
  {
    Lookup(page, "pageid").None? || Lookup(page, "pageid").value.JNum?
  }

  /** True when the member is absent or holds a string (the `description` assertion passes). */
  predicate DescriptionWellTyped(page: Fields)
  {
    Lookup(page, "description").None? || Lookup(page, "description").value.JStr?
  }

  /** The page identifier the page carries, 0 when it carries none. */
  function PageIdOf(page: Fields): int
    requires PageIdWellTyped(page)
  {
    if Lookup(page, "pageid").Some? then Lookup(page, "pageid").value.n else 0
  }

  /** The description the page carries, "" when it carries none. */
  function DescriptionOf(page: Fields): string
    requires DescriptionWellTyped(page)
  {
    if Lookup(page, "description").Some? then Lookup(page, "description").value.s else ""
  }

  /** The `links` member when it is present and an array. */
  function LinksOf(page: Fields): Option<seq<JVal>>
  {
    var l := Lookup(page, "links");
    if l.Some? && l.value.JArr? then Some(l.value.items) else None
  }

  /** A link object whose `title` member is a string. */
  predicate HasStringTitle(link: JVal)
  {
    link.JObj? && Lookup(link.fields, "title").Some? && Lookup(link.fields, "title").value.JStr?
  }

  function TitleOf(link: JVal): string
    requires HasStringTitle(link)
  {
    Lookup(link.fields, "title").value.s
  }

  /** What the walk over the `links` array ends with: every title, or the
      index of the first link that stops it. */
  datatype LinksOutcome = Titles(titles: seq<string>) | BadTitle(index: nat) | NotObject(index: nat)

  /** The loop over `links`: append each string title in order; a link that
      is not an object panics, a link without a string title ends the walk
      with an error. */
  function LinkTitles(links: seq<JVal>): (r: LinksOutcome)
    ensures r.Titles? <==> forall i :: 0 <= i < |links| ==> HasStringTitle(links[i])
    ensures r.Titles? ==>
      |r.titles| == |links| && forall i :: 0 <= i < |links| ==> r.titles[i] == TitleOf(links[i])
    ensures r.BadTitle? ==>
      r.index < |links| && links[r.index].JObj? && !HasStringTitle(links[r.index]) &&
      forall i :: 0 <= i < r.index ==> HasStringTitle(links[i])
    ensures r.NotObject? ==>
      r.index < |links| && !links[r.index].JObj? &&
      forall i :: 0 <= i < r.index ==> HasStringTitle(links[i])
    decreases |links|
  {
    if |links| == 0 then Titles([])
    else if !links[0].JObj? then NotObject(0)
    else if !HasStringTitle(links[0]) then BadTitle(0)
    else
      match LinkTitles(links[1..])
      case Titles(ts) => Titles([TitleOf(links[0])] + ts)
      case BadTitle(i) => BadTitle(i + 1)
      case NotObject(i) => NotObject(i + 1)
  }

  /** The body of the loop over `pages`, for the one entry it looks at. */
  function ParsePage(page: JVal): (r: ParseOutcome)
    // the page itself must be an object, and `pageid` is asserted first
    ensures r == Crash(PageNotObject) <==> !page.JObj?
    ensures r == Crash(PageIdNotNumber) <==> page.JObj? && !PageIdWellTyped(page.fields)
    // the later assertions run only for a page not flagged missing
    ensures r == Crash(DescriptionNotString) <==>
      && page.JObj? && PageIdWellTyped(page.fields) && !Has(page.fields, "missing")
      && !DescriptionWellTyped(page.fields)
    ensures r == Crash(LinksNotArray) <==>
      && page.JObj? && PageIdWellTyped(page.fields) && !Has(page.fields, "missing")
      && DescriptionWellTyped(page.fields) && Has(page.fields, "links") && LinksOf(page.fields).None?
    ensures r == Crash(LinkNotObject) <==>
      && page.JObj? && PageIdWellTyped(page.fields) && !Has(page.fields, "missing")
      && DescriptionWellTyped(page.fields) && LinksOf(page.fields).Some?
      && exists k :: 0 <= k < |LinksOf(page.fields).value| &&
           !LinksOf(page.fields).value[k].JObj? &&
           forall i :: 0 <= i < k ==> HasStringTitle(LinksOf(page.fields).value[i])
    // a missing marker wins over every other member of the entry
    ensures page.JObj? && PageIdWellTyped(page.fields) && Has(page.fields, "missing") ==>
      r == Ok(MissingPage)
    ensures r.Ok? ==> (r.value.missing <==> Has(page.fields, "missing"))
    // a present page with no `links` succeeds with no links and page id 0
    ensures page.JObj? && PageIdWellTyped(page.fields) && !Has(page.fields, "missing") &&
            DescriptionWellTyped(page.fields) && !Has(page.fields, "links") ==>
      r == Ok(Parsed(false, DescriptionOf(page.fields), [], 0))
    // a present page with links yields its description, id and every title in order
    ensures r.Ok? && !r.value.missing && Has(page.fields, "links") ==>
      && PageIdWellTyped(page.fields) && DescriptionWellTyped(page.fields)
      && LinksOf(page.fields).Some?
      && var items := LinksOf(page.fields).value;
      && r.value.description == DescriptionOf(page.fields)
      && r.value.pageID == PageIdOf(page.fields)
      && |r.value.links| == |items|
      && forall i :: 0 <= i < |items| ==> HasStringTitle(items[i]) && r.value.links[i] == TitleOf(items[i])
    // the two assertions above the page are not this function's to fail
    ensures r.Crash? ==> r.at !in {QueryNotObject, PagesNotObject}
    // a present page whose links are all well-formed title links succeeds
    ensures && page.JObj? && PageIdWellTyped(page.fields) && !Has(page.fields, "missing")
            && DescriptionWellTyped(page.fields) && LinksOf(page.fields).Some?
            && (forall i :: 0 <= i < |LinksOf(page.fields).value| ==> HasStringTitle(LinksOf(page.fields).value[i]))
            ==> r.Ok?
    // one bad title fails the whole page, with no partial list
    ensures r.Err? ==> r == Err(IncorrectTitle, MissingPage)
    ensures r.Err? <==>
      && page.JObj? && PageIdWellTyped(page.fields) && !Has(page.fields, "missing")
      && DescriptionWellTyped(page.fields) && LinksOf(page.fields).Some?
      && exists k :: 0 <= k < |LinksOf(page.fields).value| &&
           LinksOf(page.fields).value[k].JObj? && !HasStringTitle(LinksOf(page.fields).value[k]) &&
           forall i :: 0 <= i < k ==> HasStringTitle(LinksOf(page.fields).value[i])
  {
    if !page.JObj? then Crash(PageNotObject)
    else
      var f := page.fields;
      var id := Lookup(f, "pageid");
      if id.Some? && !id.value.JNum? then Crash(PageIdNotNumber)
      else if Has(f, "missing") then Ok(MissingPage)
      else
        var desc := Lookup(f, "description");
        if desc.Some? && !desc.value.JStr? then Crash(DescriptionNotString)
        else
          var description := if desc.Some? then desc.value.s else "";
          var links := Lookup(f, "links");
          if links.None? then Ok(Parsed(false, description, [], 0))
          else if !links.value.JArr? then Crash(LinksNotArray)
          else
            match LinkTitles(links.value.items)
            case Titles(ts) => Ok(Parsed(false, description, ts, if id.Some? then id.value.n else 0))
            case BadTitle(_) => Err(IncorrectTitle, MissingPage)
            case NotObject(_) => Crash(LinkNotObject)
  }

  /** The `pages` member of `query`, when `query` is present, an object, and has one. */
  function PagesMember(response: Fields): Option<JVal>
  {
    var q := Lookup(response, "query");
    if q.Some? && q.value.JObj? then Lookup(q.value.fields, "pages") else None
  }

  /** The page entry the loop over `pages` looks at. The Go loop returns
      while looking at whichever entry its map iteration yields first, and
      the order is unspecified; the model takes the last member, which is
      always the live binding of its key (an earlier member with the same
      key is overridden and never reaches the decoded map). */
  function VisitedPage(pages: Fields): (p: (string, JVal))
    requires |pages| > 0
    ensures Lookup(pages, p.0) == Some(p.1)
  {
    pages[|pages| - 1]
  }

  /** `parseResponse`: walk a decoded API answer down to one page entry. */
  function ParseResponse(response: Fields): (r: ParseOutcome)
    // no `query`, or a `query` object with no `pages`: malformed, nothing parsed
    ensures !Has(response, "query") ==> r == Err(MalformedResponse, NothingParsed)
    ensures Has(response, "query") && Lookup(response, "query").value.JObj? &&
            PagesMember(response).None? ==>
      r == Err(MalformedResponse, NothingParsed)
    ensures r.Err? && r.error == MalformedResponse <==>
      !Has(response, "query") ||
      (Lookup(response, "query").value.JObj? && PagesMember(response).None?)
    // a present but non-object `query` or `pages` panics
    ensures Has(response, "query") && !Lookup(response, "query").value.JObj? ==>
      r == Crash(QueryNotObject)
    ensures PagesMember(response).Some? && !PagesMember(response).value.JObj? ==>
      r == Crash(PagesNotObject)
    // an empty `pages` mapping: no-page error, flagged missing
    ensures r.Err? && r.error == NoPage <==>
      PagesMember(response) == Some(JObj([]))
    ensures r.Err? && r.error == NoPage ==> r.partial == MissingPage
    // otherwise one entry of the decoded `pages` map decides
    ensures PagesMember(response).Some? && PagesMember(response).value.JObj? &&
            |PagesMember(response).value.fields| > 0 ==>
      exists key :: Has(PagesMember(response).value.fields, key) &&
        r == ParsePage(Lookup(PagesMember(response).value.fields, key).value)
    // an error never comes with description, links or page id
    ensures r.Err? ==> r.partial.description == "" && r.partial.links == [] && r.partial.pageID == 0
  {
    var q := Lookup(response, "query");
    if q.None? then Err(MalformedResponse, NothingParsed)
    else if !q.value.JObj? then Crash(QueryNotObject)
    else
      var pages := Lookup(q.value.fields, "pages");
      if pages.None? then Err(MalformedResponse, NothingParsed)
      else if !pages.value.JObj? then Crash(PagesNotObject)
      else if |pages.value.fields| == 0 then Err(NoPage, MissingPage)
      else
        var page := VisitedPage(pages.value.fields);
        assert Has(pages.value.fields, page.0);
        ParsePage(page.1)
  }

  // ---------------------------------------------------------------------
  // CrawlArticle
  // ---------------------------------------------------------------------

  /** An article as `CrawlArticle` builds it; a linked article is a stub
      carrying only its title. */
  datatype Article = Article(
    title: string,
    description: string,
    missing: bool,
    linkedArticles: seq<Article>,
    pageID: int)

  /** An article with only its title set. */
  function Stub(title: string): Article
  {
    Article(title, "", false, [], 0)
  }

  /** The zero article, returned with every error. */
  const EmptyArticle := Stub("")

  /** The loop that turns each parsed link title into a stub, in order:
      every element is a title-only article, and reading the titles back
      gives the list. */
  function Stubs(links: seq<string>): (r: seq<Article>)
    ensures TitlesOf(r) == links
    ensures forall a :: a in r ==> a == Stub(a.title)
  {
    seq(|links|, i requires 0 <= i < |links| => Stub(links[i]))
  }

  /** The titles of a list of articles. */
  function TitlesOf(articles: seq<Article>): seq<string>
  {
    seq(|articles|, i requires 0 <= i < |articles| => articles[i].title)
  }

  /** The reply of the HTTP call, abstracted: a transport error, or a
      status code with the body as `json.Unmarshal` decoded it (`None`
      when the body is not valid JSON). */
  datatype HttpResponse =
    | TransportError(reason: string)
    | HttpReply(status: int, body: Option<JVal>)

  datatype CrawlError =
    | Transport(reason: string)   // the error of the HTTP call, passed through
    | NonSuccessStatus            // a status outside the 2xx class; the message does not carry the code
    | Parse(error: ParseError)

  /** What `CrawlArticle` does: return an article and maybe an error, or panic. */
  datatype CrawlOutcome =
    | Returned(article: Article, err: Option<CrawlError>)
    | Crashed(at: Panic)

  /** The successful class of status codes, 200 to 299 (section 15.3 of RFC 9110). */
  predicate IsSuccessStatus(status: int)
  {
    200 <= status <= 299
  }

  /** The map `json.Unmarshal` leaves in `result`: the members of a top-level
      object, and a nil (empty) map for anything else or an undecodable body. */
  function DecodedBody(body: Option<JVal>): (r: Fields)
    // a top-level object answers every lookup as the document does
    ensures body.Some? && body.value.JObj? ==>
      forall key :: Lookup(r, key) == Lookup(body.value.fields, key)
    // anything else leaves a nil map, in which every lookup misses
    ensures body.None? || !body.value.JObj? ==> forall key :: !Has(r, key)
  {
    if body.Some? && body.value.JObj? then body.value.fields else []
  }

  /** `CrawlArticle` with the HTTP call's reply as input. */
  function CrawlArticle(title: string, response: HttpResponse): (r: CrawlOutcome)
    // every error comes with the empty article
    ensures r.Returned? && r.err.Some? ==> r.article == EmptyArticle
    ensures response.TransportError? ==> r == Returned(EmptyArticle, Some(Transport(response.reason)))
    ensures response.HttpReply? && !IsSuccessStatus(response.status) ==>
      r == Returned(EmptyArticle, Some(NonSuccessStatus))
    // an undecodable body leaves a nil map: malformed response
    ensures response.HttpReply? && IsSuccessStatus(response.status) && response.body.None? ==>
      r == Returned(EmptyArticle, Some(Parse(MalformedResponse)))
    ensures response.HttpReply? && IsSuccessStatus(response.status) ==>
      var p := ParseResponse(DecodedBody(response.body));
      && (p.Crash? <==> r.Crashed?)
      && (p.Crash? ==> r == Crashed(p.at))
      && (p.Err? <==> r.Returned? && r.err.Some?)
      && (p.Err? ==> r.err == Some(Parse(p.error)))
    // on success the article carries the title asked for and the parsed values
    ensures r.Returned? && r.err.None? ==>
      && response.HttpReply? && IsSuccessStatus(response.status)
      && var p := ParseResponse(DecodedBody(response.body));
      && p.Ok?
      && r.article.title == title
      && r.article.description == p.value.description
      && r.article.missing == p.value.missing
      && r.article.pageID == p.value.pageID
      && TitlesOf(r.article.linkedArticles) == p.value.links
      && forall i :: 0 <= i < |r.article.linkedArticles| ==> r.article.linkedArticles[i] == Stub(p.value.links[i])
    // a missing article carries nothing but its title
    ensures r.Returned? && r.err.None? && r.article.missing ==>
      r.article == Article(title, "", true, [], 0)
  {
    match response
    case TransportError(reason) => Returned(EmptyArticle, Some(Transport(reason)))
    case HttpReply(status, body) =>
      if !IsSuccessStatus(status) then Returned(EmptyArticle, Some(NonSuccessStatus))
      else
        match ParseResponse(DecodedBody(body))
        case Crash(at) => Crashed(at)
        case Err(e, _) => Returned(EmptyArticle, Some(Parse(e)))
        case Ok(p) =>
          Returned(Article(title, p.description, p.missing, Stubs(p.links), p.pageID), None)
  }

  // ---------------------------------------------------------------------
  // The API's page entry as a typed schema, and its JSON rendering
  // ---------------------------------------------------------------------

  /** One entry of `pages` as the API documents it: every member optional. */
  datatype PageEntry = PageEntry(
    pageid: Option<int>,
    missing: bool,
    description: Option<string>,
    links: Option<seq<string>>)

  /** The JSON object for a link title. */
  function LinkJson(title: string): JVal
  {
    JObj([("title", JStr(title))])
  }

  function PageIdMember(e: PageEntry): Fields
  {
    if e.pageid.Some? then [("pageid", JNum(e.pageid.value))] else []
  }

  function MissingMember(e: PageEntry): Fields
  {
    if e.missing then [("missing", JStr(""))] else []
  }

  function DescriptionMember(e: PageEntry): Fields
  {
    if e.description.Some? then [("description", JStr(e.description.value))] else []
  }

  function LinksMember(e: PageEntry): Fields
  {
    if e.links.Some? then
      [("links", JArr(seq(|e.links.value|, i requires 0 <= i < |e.links.value| => LinkJson(e.links.value[i]))))]
    else []
  }

  /** The page entry as the API renders it. */
  function PageJson(e: PageEntry): JVal
  {
    JObj(PageIdMember(e) + MissingMember(e) + DescriptionMember(e) + LinksMember(e))
  }

  /** A whole API answer holding the one page entry under `key`. */
  function ResponseJson(key: string, e: PageEntry): Fields
  {
    [("query", JObj([("pages", JObj([(key, PageJson(e))]))]))]
  }

  /** What the crawler is meant to take from a page entry, read off the
      typed entry: a missing page yields only the flag; a page without
      links yields its description and page id 0; otherwise the
      description, the page id (0 if absent) and the link titles. */
  function Meaning(e: PageEntry): Parsed
  {
    if e.missing then Parsed(true, "", [], 0)
    else if e.links.None? then Parsed(false, e.description.GetOr(""), [], 0)
    else Parsed(false, e.description.GetOr(""), e.links.value, e.pageid.GetOr(0))
  }

  /** Looking a key up in four concatenated member lists: the last list that has it answers. */
  lemma LookupFour(a: Fields, b: Fields, c: Fields, d: Fields, key: string)
    ensures Lookup(a + b + c + d, key) ==
      if Lookup(d, key).Some? then Lookup(d, key)
      else if Lookup(c, key).Some? then Lookup(c, key)
      else if Lookup(b, key).Some? then Lookup(b, key)
      else Lookup(a, key)
  {
    LookupAppend(a + b + c, d, key);
    LookupAppend(a + b, c, key);
    LookupAppend(a, b, key);
  }

  /** Each member of a rendered page entry reads back as the value it was rendered from. */
  lemma PageJsonLookups(e: PageEntry)
    ensures Lookup(PageJson(e).fields, "pageid") ==
      (if e.pageid.Some? then Some(JNum(e.pageid.value)) else None)
    ensures Has(PageJson(e).fields, "missing") == e.missing
    ensures Lookup(PageJson(e).fields, "description") ==
      (if e.description.Some? then Some(JStr(e.description.value)) else None)
    ensures Lookup(PageJson(e).fields, "links") == (if e.links.Some? then Some(LinksMember(e)[0].1) else None)
  {
    var a, b, c, d := PageIdMember(e), MissingMember(e), DescriptionMember(e), LinksMember(e);
    assert PageJson(e).fields == a + b + c + d;
    LookupFour(a, b, c, d, "pageid");
    LookupFour(a, b, c, d, "missing");
    LookupFour(a, b, c, d, "description");
    LookupFour(a, b, c, d, "links");
  }

  /** The rendered links array walks back to the titles it was rendered from. */
  lemma LinksRoundTrip(e: PageEntry)
    requires e.links.Some?
    ensures LinkTitles(LinksMember(e)[0].1.items) == Titles(e.links.value)
  {
  }

  /** Parsing a rendered page entry gives back the entry's meaning. */
  lemma ParsePageRoundTrip(e: PageEntry)
    ensures ParsePage(PageJson(e)) == Ok(Meaning(e))
  {
    PageJsonLookups(e);
    var f := PageJson(e).fields;
    if e.missing {
      assert Has(f, "missing");
    } else if e.links.None? {
      assert !Has(f, "missing") && Lookup(f, "links").None?;
    } else {
      LinksRoundTrip(e);
      assert !Has(f, "missing") && Lookup(f, "links") == Some(LinksMember(e)[0].1);
    }
  }

  /** Parsing a rendered answer gives back the entry's meaning. */
  lemma ParseRoundTrip(key: string, e: PageEntry)
    ensures ParseResponse(ResponseJson(key, e)) == Ok(Meaning(e))
  {
    var pages := JObj([(key, PageJson(e))]);
    assert Lookup(ResponseJson(key, e), "query") == Some(JObj([("pages", pages)]));
    assert PagesMember(ResponseJson(key, e)) == Some(pages);
    ParsePageRoundTrip(e);
  }

  /** Fetching a rendered answer with a 2xx status yields the article the
      entry describes, under the title asked for. */
  lemma CrawlRoundTrip(title: string, status: int, key: string, e: PageEntry)
    requires IsSuccessStatus(status)
    ensures
      var m := Meaning(e);
      CrawlArticle(title, HttpReply(status, Some(JObj(ResponseJson(key, e))))) ==
        Returned(Article(title, m.description, m.missing, Stubs(m.links), m.pageID), None)
  {
    var answer := ResponseJson(key, e);
    assert DecodedBody(Some(JObj(answer))) == answer;
    ParseRoundTrip(key, e);
  }

  /** A worked answer: an existing page with a description and two links. */
  lemma CatExample()
    ensures
      var page := JObj([
        ("pageid", JNum(1)),
        ("description", JStr("a feline")),
        ("links", JArr([JObj([("title", JStr("Animal"))]), JObj([("title", JStr("Mammal"))])]))]);
      var answer := JObj([("query", JObj([("pages", JObj([("1", page)]))]))]);
      CrawlArticle("Cat", HttpReply(200, Some(answer))) ==
        Returned(Article("Cat", "a feline", false, [Stub("Animal"), Stub("Mammal")], 1), None)
  {
    var e := PageEntry(Some(1), false, Some("a feline"), Some(["Animal", "Mammal"]));
    var links := JArr([JObj([("title", JStr("Animal"))]), JObj([("title", JStr("Mammal"))])]);
    assert PageIdMember(e) == [("pageid", JNum(1))];
    assert MissingMember(e) == [];
    assert DescriptionMember(e) == [("description", JStr("a feline"))];
    var items := LinksMember(e)[0].1.items;
    assert |items| == 2 && items[0] == LinkJson("Animal") && items[1] == LinkJson("Mammal");
    assert items == links.items;
    assert LinksMember(e) == [("links", links)];
    assert PageJson(e) == JObj([("pageid", JNum(1)), ("description", JStr("a feline")), ("links", links)]);
    CrawlRoundTrip("Cat", 200, "1", e);
    assert Stubs(["Animal", "Mammal"]) == [Stub("Animal"), Stub("Mammal")];
  }

  /** An answer whose `pages` repeats a key: the later member overrides the
      earlier one, so the earlier (non-object) value is never looked at. */
  lemma DuplicatePageKeyExample()
    ensures
      var pages := JObj([("1", JNum(5)), ("1", JObj([("missing", JStr(""))]))]);
      ParseResponse([("query", JObj([("pages", pages)]))]) == Ok(MissingPage)
  {
  }
}
