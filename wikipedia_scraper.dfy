/** The extraction helpers of `src/wikipedia_scraper.py`: the article URL of a title, the actor
    names and links of the infobox's "Starring" row, the poster and year, and the metadata
    dictionary `main` fills per film. HTML parsing, the HTTP fetch and the percent-encoding of
    one character are parameters or abstract inputs. */
module WikipediaScraper {
  import opened Wrappers
  import opened Strings

  // ---------------------------------------------------------------- get_URL

  const WikiBase := "https://en.wikipedia.org/wiki/"
  const WikiHost := "https://en.wikipedia.org"

  /** `urllib.parse.quote` of a one-character string. */
  type Quote = char -> string

  /** `''.join(map(urllib.parse.quote, title))`: each character quoted on its own. */
  function QuoteEach(title: string, quote: Quote): string
  {
    if |title| == 0 then "" else quote(title[0]) + QuoteEach(title[1..], quote)
  }

  /** `get_URL`; callers that omit `base_url` pass `WikiBase`. */
  function GetURL(title: string, quote: Quote, baseUrl: string := WikiBase): (url: string)
  {
    baseUrl + QuoteEach(title, quote)
  }

  /** Quoting works character by character: the quote of a concatenation is the concatenation
      of the quotes. */
  lemma {:induction false} QuoteEachConcat(a: string, b: string, quote: Quote)
    ensures QuoteEach(a + b, quote) == QuoteEach(a, quote) + QuoteEach(b, quote)
  {
    if |a| > 0 {
      assert (a + b)[1..] == a[1..] + b;
      QuoteEachConcat(a[1..], b, quote);
    } else {
      assert a + b == b;
    }
  }

  /** The URL is the base followed by the quote of each title character, in order. */
  lemma GetURLShape(title: string, quote: Quote, baseUrl: string)
    ensures StartsWith(GetURL(title, quote, baseUrl), baseUrl)
    ensures |title| > 0 ==>
      GetURL(title, quote, baseUrl) == baseUrl + quote(title[0]) + QuoteEach(title[1..], quote)
  {
    var url := GetURL(title, quote, baseUrl);
    assert url[..|baseUrl|] == baseUrl;
  }

  /** A title whose characters all quote to themselves is used as it is. */
  lemma {:induction false} QuoteEachUnreserved(title: string, quote: Quote)
    requires forall k :: 0 <= k < |title| ==> quote(title[k]) == [title[k]]
    ensures QuoteEach(title, quote) == title
  {
    if |title| > 0 {
      assert forall k :: 0 <= k < |title[1..]| ==> title[1..][k] == title[k + 1];
      QuoteEachUnreserved(title[1..], quote);
      assert title == [title[0]] + title[1..];
    }
  }

  // ---------------------------------------------------------------- get_actors

  /** An `<a>` tag with its `title` and `href` attributes. */
  datatype Anchor = Anchor(title: string, href: string)

  /** An `<li>` tag: its first `<a>`, if any, and its `.string` (None when it has several
      children). */
  datatype ListItem = ListItem(anchor: Option<Anchor>, text: Option<string>)

  /** A `<tr>` of the infobox: its markup and its `<li>` tags. */
  datatype TableRow = TableRow(markup: string, items: seq<ListItem>)

  /** The anchor's title, else the line's string. */
  function ActorName(line: ListItem): Option<string>
  {
    match line.anchor
    case Some(a) => Some(a.title)
    case None => line.text
  }

  /** The site host followed by the anchor's href, else "". */
  function ActorUrl(line: ListItem): string
  {
    match line.anchor
    case Some(a) => WikiHost + a.href
    case None => ""
  }

  /** The two lists built from one row's `<li>` tags. */
  function ActorLists(tr: TableRow): (r: (seq<Option<string>>, seq<string>))
  {
    (seq(|tr.items|, k requires 0 <= k < |tr.items| => ActorName(tr.items[k])),
     seq(|tr.items|, k requires 0 <= k < |tr.items| => ActorUrl(tr.items[k])))
  }

  /** Both lists are as long as the row's `<li>` list; each name is the anchor's title or the
      line's string, and each link is the host plus the href or "". */
  lemma ActorListsShape(tr: TableRow)
    ensures var (names, urls) := ActorLists(tr);
      && |names| == |tr.items| == |urls|
      && forall k :: 0 <= k < |tr.items| ==>
           && (tr.items[k].anchor.Some? ==>
                 && names[k] == Some(tr.items[k].anchor.value.title)
                 && urls[k] == WikiHost + tr.items[k].anchor.value.href
                 && StartsWith(urls[k], WikiHost))
           && (tr.items[k].anchor.None? ==> names[k] == tr.items[k].text && urls[k] == "")
  {
    var (names, urls) := ActorLists(tr);
    forall k | 0 <= k < |tr.items| && tr.items[k].anchor.Some?
      ensures StartsWith(urls[k], WikiHost)
    {
      assert urls[k][..|WikiHost|] == WikiHost;
    }
  }

  /** `re.search('Starring', str(tr))` */
  predicate IsStarring(tr: TableRow)
  {
    Contains(tr.markup, "Starring")
  }

  /** The position of the last "Starring" row. */
  function LastStarring(rows: seq<TableRow>): (k: Option<nat>)
    ensures k.Some? ==> k.value < |rows|
  {
    if |rows| == 0 then None
    else if IsStarring(rows[|rows| - 1]) then Some(|rows| - 1)
    else LastStarring(rows[..|rows| - 1])
  }

  /** The row found is a "Starring" row with none after it; None means there is none. */
  lemma {:induction false} LastStarringIsLast(rows: seq<TableRow>)
    ensures var k := LastStarring(rows);
      && (k.Some? ==> IsStarring(rows[k.value]) && forall j :: k.value < j < |rows| ==> !IsStarring(rows[j]))
      && (k.None? ==> forall j :: 0 <= j < |rows| ==> !IsStarring(rows[j]))
  {
    if |rows| > 0 && !IsStarring(rows[|rows| - 1]) {
      LastStarringIsLast(rows[..|rows| - 1]);
    }
  }

  /** What `get_actors` returns: the lists of the last "Starring" row. None stands for the
      unbound `actors` of an infobox without one. */
  function Actors(rows: seq<TableRow>): Option<(seq<Option<string>>, seq<string>)>
  {
    match LastStarring(rows)
    case None => None
    case Some(k) => Some(ActorLists(rows[k]))
  }

  /** `get_actors`: every "Starring" row overwrites the lists. */
  method GetActors(rows: seq<TableRow>) returns (r: Option<(seq<Option<string>>, seq<string>)>)
    ensures r == Actors(rows)
  {
    r := None;
    for k := 0 to |rows|
      invariant r == Actors(rows[..k])
    {
      assert rows[..k + 1][..k] == rows[..k];
      assert rows[..k + 1][k] == rows[k];
      var tr := rows[k];
      if Contains(tr.markup, "Starring") {
        var actorLines := tr.items;
        var actors := seq(|actorLines|, j requires 0 <= j < |actorLines| => ActorName(actorLines[j]));
        var actorUrls := seq(|actorLines|, j requires 0 <= j < |actorLines| => ActorUrl(actorLines[j]));
        assert actors == ActorLists(tr).0 by {
          assert forall j :: 0 <= j < |actorLines| ==> actors[j] == ActorLists(tr).0[j];
        }
        assert actorUrls == ActorLists(tr).1 by {
          assert forall j :: 0 <= j < |actorLines| ==> actorUrls[j] == ActorLists(tr).1[j];
        }
        r := Some((actors, actorUrls));
      }
    }
    assert rows[..|rows|] == rows;
  }

  // ---------------------------------------------------------------- poster and year

  /** `'https:' + find_all('img', limit=1)[0]['src']`: None when the infobox has no image. */
  function GetPoster(imageSrcs: seq<string>): (r: Option<string>)
  {
    if |imageSrcs| == 0 then None else Some("https:" + imageSrcs[0])
  }

  /** The poster is the first image's source behind the scheme "https:". */
  lemma GetPosterShape(imageSrcs: seq<string>)
    ensures GetPoster(imageSrcs).Some? <==> |imageSrcs| > 0
    ensures GetPoster(imageSrcs).Some? ==>
      StartsWith(GetPoster(imageSrcs).value, "https:") && GetPoster(imageSrcs).value[6..] == imageSrcs[0]
  {
    if |imageSrcs| > 0 {
      var p := GetPoster(imageSrcs).value;
      assert p[..6] == "https:";
    }
  }

  /** `find_all('span', ..., limit=1)[0].string.split('-')[0]`: None when there is no such span,
      or when the first one has no single string inside (`.string` is None and `.split` raises). */
  function GetYear(dateSpans: seq<Option<string>>): (r: Option<string>)
  {
    if |dateSpans| == 0 || dateSpans[0].None? then None else Some(Split(dateSpans[0].value, '-')[0])
  }

  /** There is a year exactly when the first date span has a string, and it is that text up to
      its first '-', or all of it. */
  lemma GetYearShape(dateSpans: seq<Option<string>>)
    ensures GetYear(dateSpans).Some? <==> |dateSpans| > 0 && dateSpans[0].Some?
    ensures GetYear(dateSpans).Some? ==>
      var date := dateSpans[0].value;
      var year := GetYear(dateSpans).value;
      && '-' !in year
      && (if '-' in date then date == year + "-" + date[|year| + 1..] else year == date)
  {
    if GetYear(dateSpans).Some? {
      var date := dateSpans[0].value;
      if '-' in date {
        var k := IndexOf(date, '-');
        assert date == date[..k] + "-" + date[k + 1..];
      }
    }
  }

  // ---------------------------------------------------------------- scrape_wikipedia and main

  /** The `infobox vevent` table: its rows and the sources of its images. */
  datatype Infobox = Infobox(rows: seq<TableRow>, imageSrcs: seq<string>)

  /** What the parsed article offers: its infobox tables and the `.string` of each date span. */
  datatype Page = Page(infoboxes: seq<Infobox>, dateSpans: seq<Option<string>>)

  /** `get_htmltext` and the parse: None for a status other than 200. */
  type Fetch = string -> Option<Page>

  /** The tuple `scrape_wikipedia` returns. */
  datatype FilmData = FilmData(title: string, url: string, year: string, poster: string,
                               actors: seq<Option<string>>, actorUrls: seq<string>)

  /** `scrape_wikipedia`: None for every path on which it raises (no page, no infobox, no date
      span or one without a string, no image, no "Starring" row). */
  function ScrapeWikipedia(filmTitle: string, quote: Quote, fetch: Fetch): (r: Option<FilmData>)
  {
    var url := GetURL(filmTitle, quote);
    match fetch(url)
    case None => None
    case Some(page) =>
      if |page.infoboxes| == 0 then None
      else
        var infobox := page.infoboxes[0];
        match (GetYear(page.dateSpans), GetPoster(infobox.imageSrcs), Actors(infobox.rows))
        case (Some(year), Some(poster), Some((actors, urls))) =>
          Some(FilmData(filmTitle, url, year, poster, actors, urls))
        case _ => None
  }

  /** A scraped film carries its own title, the URL of its article, the year of the page's
      first date span, and the first infobox's poster and "Starring" lists. */
  lemma ScrapeWikipediaFields(filmTitle: string, quote: Quote, fetch: Fetch)
    requires ScrapeWikipedia(filmTitle, quote, fetch).Some?
    ensures var d := ScrapeWikipedia(filmTitle, quote, fetch).value;
      && d.title == filmTitle
      && d.url == WikiBase + QuoteEach(filmTitle, quote)
      && fetch(d.url).Some? && |fetch(d.url).value.infoboxes| > 0
      && GetYear(fetch(d.url).value.dateSpans) == Some(d.year)
      && GetPoster(fetch(d.url).value.infoboxes[0].imageSrcs) == Some(d.poster)
      && Actors(fetch(d.url).value.infoboxes[0].rows) == Some((d.actors, d.actorUrls))
      && |d.actors| == |d.actorUrls|
  {
    var url := GetURL(filmTitle, quote);
    var infobox := fetch(url).value.infoboxes[0];
    LastStarringIsLast(infobox.rows);
  }

  /** A row of the film table. */
  datatype FilmRow = FilmRow(id: int, filmName: string)

  /** `scrape_wikipedia` for any film title. */
  type Scrape = string -> Option<FilmData>

  function Scraper(quote: Quote, fetch: Fetch): Scrape
  {
    filmTitle => ScrapeWikipedia(filmTitle, quote, fetch)
  }

  /** The dictionary `main` builds: every row's data under its id, a later row overwriting an
      earlier one with the same id. None when a scrape raises. */
  function Metadata(films: seq<FilmRow>, scrape: Scrape): Option<map<int, FilmData>>
  {
    if |films| == 0 then Some(map[])
    else
      var n := |films| - 1;
      match (Metadata(films[..n], scrape), scrape(films[n].filmName))
      case (Some(m), Some(d)) => Some(m[films[n].id := d])
      case _ => None
  }

  /** The keys are exactly the films' ids. */
  lemma {:induction false} MetadataKeys(films: seq<FilmRow>, scrape: Scrape)
    requires Metadata(films, scrape).Some?
    ensures forall id :: id in Metadata(films, scrape).value <==> exists k :: 0 <= k < |films| && films[k].id == id
  {
    if |films| > 0 {
      var n := |films| - 1;
      MetadataKeys(films[..n], scrape);
      assert forall k :: 0 <= k < n ==> films[..n][k] == films[k];
    }
  }

  /** Each id holds the data of the last row with that id. */
  lemma {:induction false} MetadataLastWins(films: seq<FilmRow>, scrape: Scrape, k: nat)
    requires Metadata(films, scrape).Some?
    requires k < |films| && forall j :: k < j < |films| ==> films[j].id != films[k].id
    ensures films[k].id in Metadata(films, scrape).value
    ensures scrape(films[k].filmName) == Some(Metadata(films, scrape).value[films[k].id])
  {
    var n := |films| - 1;
    if k < n {
      assert films[..n][k] == films[k];
      MetadataLastWins(films[..n], scrape, k);
    }
  }

  /** A scrape succeeds for the whole table exactly when it succeeds for every row. */
  lemma {:induction false} MetadataDefined(films: seq<FilmRow>, scrape: Scrape)
    ensures Metadata(films, scrape).Some? <==>
      forall k :: 0 <= k < |films| ==> scrape(films[k].filmName).Some?
  {
    if |films| > 0 {
      var n := |films| - 1;
      MetadataDefined(films[..n], scrape);
      assert forall k :: 0 <= k < n ==> films[..n][k] == films[k];
    }
  }

  /** `main`'s loop: scrape each row and store it under the row's id. */
  method FillMetadata(films: seq<FilmRow>, quote: Quote, fetch: Fetch) returns (r: Option<map<int, FilmData>>)
    ensures r == Metadata(films, Scraper(quote, fetch))
  {
    var filmsMetadata: map<int, FilmData> := map[];
    for k := 0 to |films|
      invariant Metadata(films[..k], Scraper(quote, fetch)) == Some(filmsMetadata)
    {
      assert films[..k + 1][..k] == films[..k];
      var data := ScrapeWikipedia(films[k].filmName, quote, fetch);
      if data.None? {
        MetadataStuck(films, Scraper(quote, fetch), k + 1);
        return None;
      }
      filmsMetadata := filmsMetadata[films[k].id := data.value];
    }
    assert films[..|films|] == films;
    r := Some(filmsMetadata);
  }

  /** A failed prefix fails the whole table. */
  lemma {:induction false} MetadataStuck(films: seq<FilmRow>, scrape: Scrape, m: nat)
    requires m <= |films| && Metadata(films[..m], scrape).None?
    ensures Metadata(films, scrape).None?
  {
    if m < |films| {
      var n := |films| - 1;
      assert films[..n][..m] == films[..m];
      MetadataStuck(films[..n], scrape, m);
    } else {
      assert films[..m] == films;
    }
  }
}
