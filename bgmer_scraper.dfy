/**
 * `BGMerScraper`: collecting search results without duplicate URLs, the
 * SHORT/LONG/default classification of download links on a detail page, and the
 * script-then-anchor classification of `extract_download_links_from_page`. Every page
 * is given as what the HTML selectors and the regular expression found on it.
 */
module Bgmer {
  import opened Wrappers
  import opened Strings
  import opened OrderedDict

  /** Download links by kind ("short", "long", "default"); an absent `href` is "". */
  type Links = Dict<string, string>

  /** A music record: what the search found, and what the detail page added. */
  datatype MusicInfo = MusicInfo(title: string, url: string, keyword: string,
                                 downloadLinks: Option<Links>, description: Option<string>)

  // ---------------------------------------------------------------------------
  // Search

  /** The title anchor `h2.music-title a` of one `article.music`: its text and its href. */
  datatype Anchor = Anchor(text: string, href: string)
  datatype Item = Item(titleAnchor: Option<Anchor>)

  /** A search page: the request or the parsing raised, or the items on it. */
  datatype SearchPage = SearchError | Items(items: seq<Item>)

  /** The URLs already collected. */
  function Urls(ms: seq<MusicInfo>): (us: seq<string>)
    ensures |us| == |ms| && forall i :: 0 <= i < |ms| ==> us[i] == ms[i].url
  {
    seq(|ms|, i requires 0 <= i < |ms| => ms[i].url)
  }

  /** One item: skipped without a title anchor or when its URL is already collected. */
  function AddItem(acc: seq<MusicInfo>, keyword: string, item: Item): seq<MusicInfo> {
    if item.titleAnchor.None? || item.titleAnchor.value.href in Urls(acc) then acc
    else acc + [MusicInfo(Strip(item.titleAnchor.value.text), item.titleAnchor.value.href, keyword, None, None)]
  }

  function AddItems(acc: seq<MusicInfo>, keyword: string, items: seq<Item>): seq<MusicInfo> {
    if items == [] then acc
    else AddItem(AddItems(acc, keyword, items[..|items| - 1]), keyword, items[|items| - 1])
  }

  /** `search_sakura_music` over the keywords; `pages[i]` is the result for `keywords[i]`. */
  function SearchResults(keywords: seq<string>, pages: seq<SearchPage>): seq<MusicInfo>
    requires |pages| >= |keywords|
  {
    if keywords == [] then []
    else
      var n := |keywords| - 1;
      var before := SearchResults(keywords[..n], pages);
      if pages[n].SearchError? then before else AddItems(before, keywords[n], pages[n].items)
  }

  /** The `any(...)` test: whether a record with this URL was already collected. */
  method IsCollected(ms: seq<MusicInfo>, url: string) returns (seen: bool)
    ensures seen <==> url in Urls(ms)
  {
    seen := false;
    var q := 0;
    while q < |ms|
      invariant 0 <= q <= |ms|
      invariant seen <==> url in Urls(ms)[..q]
    {
      assert Urls(ms)[..q + 1] == Urls(ms)[..q] + [ms[q].url];
      if ms[q].url == url {
        seen := true;
      }
      q := q + 1;
    }
    assert Urls(ms)[..q] == Urls(ms);
  }

  /** The inner loop of `search_sakura_music`, over the items of one page. */
  method CollectItems(acc: seq<MusicInfo>, keyword: string, items: seq<Item>) returns (musicList: seq<MusicInfo>)
    ensures musicList == AddItems(acc, keyword, items)
  {
    musicList := acc;
    var j := 0;
    while j < |items|
      invariant 0 <= j <= |items|
      invariant musicList == AddItems(acc, keyword, items[..j])
    {
      assert items[..j + 1][..j] == items[..j];
      var item := items[j];
      if item.titleAnchor.Some? {
        var title := Strip(item.titleAnchor.value.text);
        var url := item.titleAnchor.value.href;
        var seen := IsCollected(musicList, url);
        if !seen {
          musicList := musicList + [MusicInfo(title, url, keyword, None, None)];
        }
      }
      j := j + 1;
    }
    assert items[..j] == items;
  }

  /** The keywords `search_sakura_music` searches when it is called without any. */
  const DefaultKeywords: seq<string> := ["桜", "サクラ", "さくら", "ソメイヨシノ"]

  /**
   * The outer loop of `search_sakura_music`: a page that failed is skipped. A caller
   * that gives no keywords passes `DefaultKeywords`.
   */
  method SearchSakuraMusic(keywords: seq<string>, pages: seq<SearchPage>) returns (musicList: seq<MusicInfo>)
    requires |pages| >= |keywords|
    ensures musicList == SearchResults(keywords, pages)
  {
    musicList := [];
    var k := 0;
    while k < |keywords|
      invariant 0 <= k <= |keywords|
      invariant musicList == SearchResults(keywords[..k], pages)
    {
      assert keywords[..k + 1][..k] == keywords[..k];
      if pages[k].Items? {
        musicList := CollectItems(musicList, keywords[k], pages[k].items);
      }
      k := k + 1;
    }
    assert keywords[..k] == keywords;
  }

  predicate DistinctUrls(ms: seq<MusicInfo>) {
    forall i, j :: 0 <= i < j < |ms| ==> ms[i].url != ms[j].url
  }

  /** Whether an item carries a title anchor with this URL. */
  predicate AnchoredAt(item: Item, url: string) {
    item.titleAnchor.Some? && item.titleAnchor.value.href == url
  }

  /** Whether a page that loaded lists an anchored item with this URL. */
  predicate Mentions(page: SearchPage, url: string) {
    page.Items? && exists i :: 0 <= i < |page.items| && AnchoredAt(page.items[i], url)
  }

  /** Whether a record was made from one of the items: its URL and its stripped title. */
  predicate MadeFrom(m: MusicInfo, items: seq<Item>) {
    exists i :: 0 <= i < |items| && AnchoredAt(items[i], m.url)
                && m.title == Strip(items[i].titleAnchor.value.text)
  }

  lemma UrlsGrow(a: seq<MusicInfo>, b: seq<MusicInfo>, u: string)
    requires |a| <= |b| && b[..|a|] == a && u in Urls(a)
    ensures u in Urls(b)
  {
    var p :| 0 <= p < |a| && Urls(a)[p] == u;
    assert b[p] == a[p];
    assert Urls(b)[p] == u;
  }

  /** One item leaves the collected records in place. */
  lemma AddItemPrefix(acc: seq<MusicInfo>, keyword: string, item: Item)
    ensures |acc| <= |AddItem(acc, keyword, item)| && AddItem(acc, keyword, item)[..|acc|] == acc
  {
    assert (acc + [MusicInfo("", "", keyword, None, None)])[..|acc|] == acc;
  }

  /** One item adds at most one record, made from the item, with a URL not yet collected. */
  lemma AddItemNew(acc: seq<MusicInfo>, keyword: string, item: Item)
    ensures var r := AddItem(acc, keyword, item);
            r == acc || (|r| == |acc| + 1 && item.titleAnchor.Some? && item.titleAnchor.value.href !in Urls(acc)
                         && r[|acc|] == MusicInfo(Strip(item.titleAnchor.value.text), item.titleAnchor.value.href,
                                                  keyword, None, None))
  {
  }

  /** After one anchored item its URL is collected. */
  lemma AddItemCollects(acc: seq<MusicInfo>, keyword: string, item: Item)
    requires item.titleAnchor.Some?
    ensures item.titleAnchor.value.href in Urls(AddItem(acc, keyword, item))
  {
    var r := AddItem(acc, keyword, item);
    if r != acc {
      assert Urls(r)[|acc|] == item.titleAnchor.value.href;
    }
  }

  lemma {:induction false} AddItemsPrefix(acc: seq<MusicInfo>, keyword: string, items: seq<Item>)
    ensures |acc| <= |AddItems(acc, keyword, items)| && AddItems(acc, keyword, items)[..|acc|] == acc
  {
    if items != [] {
      var before := AddItems(acc, keyword, items[..|items| - 1]);
      AddItemsPrefix(acc, keyword, items[..|items| - 1]);
      AddItemPrefix(before, keyword, items[|items| - 1]);
      var r := AddItems(acc, keyword, items);
      assert r[..|acc|] == r[..|before|][..|acc|];
    } else {
      assert acc[..|acc|] == acc;
    }
  }

  lemma {:induction false} AddItemsDistinct(acc: seq<MusicInfo>, keyword: string, items: seq<Item>)
    requires DistinctUrls(acc)
    ensures DistinctUrls(AddItems(acc, keyword, items))
  {
    if items != [] {
      var before := AddItems(acc, keyword, items[..|items| - 1]);
      AddItemsDistinct(acc, keyword, items[..|items| - 1]);
      AddItemPrefix(before, keyword, items[|items| - 1]);
      AddItemNew(before, keyword, items[|items| - 1]);
      var r := AddItems(acc, keyword, items);
      if r != before {
        forall i, j | 0 <= i < j < |r| ensures r[i].url != r[j].url {
          assert r[i] == before[i] || i == |before|;
          if j == |r| - 1 {
            assert r[i].url == Urls(before)[i];
          } else {
            assert r[i] == before[i] && r[j] == before[j];
          }
        }
      }
    }
  }

  lemma {:induction false} AddItemsComplete(acc: seq<MusicInfo>, keyword: string, items: seq<Item>, i: nat, u: string)
    requires i < |items| && AnchoredAt(items[i], u)
    ensures u in Urls(AddItems(acc, keyword, items))
  {
    var n := |items| - 1;
    var before := AddItems(acc, keyword, items[..n]);
    if i < n {
      AddItemPrefix(before, keyword, items[n]);
      assert items[..n][i] == items[i];
      AddItemsComplete(acc, keyword, items[..n], i, u);
      UrlsGrow(before, AddItems(acc, keyword, items), u);
    } else {
      AddItemCollects(before, keyword, items[n]);
    }
  }

  lemma MadeFromPrefix(m: MusicInfo, items: seq<Item>, n: nat)
    requires n <= |items| && MadeFrom(m, items[..n])
    ensures MadeFrom(m, items)
  {
    var i :| 0 <= i < n && AnchoredAt(items[..n][i], m.url) && m.title == Strip(items[..n][i].titleAnchor.value.text);
    assert items[i] == items[..n][i];
  }

  /** The record one item adds is made from that item. */
  lemma AddItemMadeFrom(acc: seq<MusicInfo>, keyword: string, items: seq<Item>, n: nat)
    requires n < |items| && |AddItem(acc, keyword, items[n])| > |acc|
    ensures AddItem(acc, keyword, items[n])[|acc|].keyword == keyword
    ensures MadeFrom(AddItem(acc, keyword, items[n])[|acc|], items)
  {
    var r := AddItem(acc, keyword, items[n]);
    assert AnchoredAt(items[n], r[|acc|].url) && r[|acc|].title == Strip(items[n].titleAnchor.value.text);
  }

  lemma {:induction false} AddItemsSound(acc: seq<MusicInfo>, keyword: string, items: seq<Item>, k: nat)
    requires |acc| <= k < |AddItems(acc, keyword, items)|
    ensures AddItems(acc, keyword, items)[k].keyword == keyword
    ensures MadeFrom(AddItems(acc, keyword, items)[k], items)
  {
    var n := |items| - 1;
    var before := AddItems(acc, keyword, items[..n]);
    var r := AddItems(acc, keyword, items);
    assert r == AddItem(before, keyword, items[n]);
    AddItemPrefix(before, keyword, items[n]);
    if k < |before| {
      AddItemsSound(acc, keyword, items[..n], k);
      assert r[k] == r[..|before|][k];
      MadeFromPrefix(r[k], items, n);
    } else {
      AddItemNew(before, keyword, items[n]);
      AddItemMadeFrom(before, keyword, items, n);
    }
  }

  lemma PrefixTrans<T>(a: seq<T>, b: seq<T>, c: seq<T>)
    requires |a| <= |b| && b[..|a|] == a
    requires |b| <= |c| && c[..|b|] == b
    ensures |a| <= |c| && c[..|a|] == a
  {
    assert c[..|a|] == c[..|b|][..|a|];
  }

  /** One more keyword leaves the records of the earlier keywords in place. */
  lemma SearchResultsStep(keywords: seq<string>, pages: seq<SearchPage>)
    requires |pages| >= |keywords| > 0
    ensures var before := SearchResults(keywords[..|keywords| - 1], pages);
            |before| <= |SearchResults(keywords, pages)| && SearchResults(keywords, pages)[..|before|] == before
  {
    var n := |keywords| - 1;
    var before := SearchResults(keywords[..n], pages);
    if pages[n].Items? {
      AddItemsPrefix(before, keywords[n], pages[n].items);
    } else {
      assert before[..|before|] == before;
    }
  }

  /** Records collected for the earlier keywords stay as they were. */
  lemma {:induction false} SearchResultsGrow(keywords: seq<string>, pages: seq<SearchPage>, k: nat)
    requires |pages| >= |keywords| && k <= |keywords|
    ensures var early := SearchResults(keywords[..k], pages);
            |early| <= |SearchResults(keywords, pages)| && SearchResults(keywords, pages)[..|early|] == early
    decreases |keywords|
  {
    if k < |keywords| {
      var n := |keywords| - 1;
      assert keywords[..n][..k] == keywords[..k];
      SearchResultsGrow(keywords[..n], pages, k);
      SearchResultsStep(keywords, pages);
      PrefixTrans(SearchResults(keywords[..k], pages), SearchResults(keywords[..n], pages), SearchResults(keywords, pages));
    } else {
      assert keywords[..k] == keywords;
      var r := SearchResults(keywords, pages);
      assert r[..|r|] == r;
    }
  }

  /** The search results never hold two records with the same URL. */
  lemma {:induction false} SearchResultsDistinct(keywords: seq<string>, pages: seq<SearchPage>)
    requires |pages| >= |keywords|
    ensures DistinctUrls(SearchResults(keywords, pages))
  {
    if keywords != [] {
      var n := |keywords| - 1;
      SearchResultsDistinct(keywords[..n], pages);
      if pages[n].Items? {
        AddItemsDistinct(SearchResults(keywords[..n], pages), keywords[n], pages[n].items);
      }
    }
  }

  /**
   * Every URL that the page of some keyword lists with a title anchor is collected,
   * even when the pages of other keywords failed.
   */
  lemma {:induction false} SearchResultsComplete(keywords: seq<string>, pages: seq<SearchPage>, k: nat, u: string)
    requires |pages| >= |keywords| && k < |keywords| && Mentions(pages[k], u)
    ensures u in Urls(SearchResults(keywords, pages))
  {
    var n := |keywords| - 1;
    var before := SearchResults(keywords[..n], pages);
    var r := SearchResults(keywords, pages);
    SearchResultsStep(keywords, pages);
    if k < n {
      SearchResultsComplete(keywords[..n], pages, k, u);
      UrlsGrow(before, r, u);
    } else {
      var i :| 0 <= i < |pages[n].items| && AnchoredAt(pages[n].items[i], u);
      assert r == AddItems(before, keywords[n], pages[n].items);
      AddItemsComplete(before, keywords[n], pages[n].items, i, u);
    }
  }

  /** Each record comes from an anchored item on the page of the keyword it records. */
  lemma {:induction false} SearchResultsSound(keywords: seq<string>, pages: seq<SearchPage>, m: nat)
    requires |pages| >= |keywords| && m < |SearchResults(keywords, pages)|
    ensures exists k :: 0 <= k < |keywords| && SearchResults(keywords, pages)[m].keyword == keywords[k]
                        && pages[k].Items? && MadeFrom(SearchResults(keywords, pages)[m], pages[k].items)
  {
    var n := |keywords| - 1;
    var before := SearchResults(keywords[..n], pages);
    var r := SearchResults(keywords, pages);
    if pages[n].Items? {
      AddItemsPrefix(before, keywords[n], pages[n].items);
    } else {
      assert r == before;
    }
    if m < |before| {
      SearchResultsSound(keywords[..n], pages, m);
      assert r[m] == r[..|before|][m];
      var k :| 0 <= k < n && before[m].keyword == keywords[..n][k] && pages[k].Items? && MadeFrom(before[m], pages[k].items);
      assert keywords[k] == keywords[..n][k];
    } else {
      AddItemsSound(before, keywords[n], pages[n].items, m);
    }
  }

  /**
   * The keyword recorded for a URL is the first one that found it: the record for a
   * URL that the page of keyword j lists was already collected by keyword j.
   */
  lemma FirstKeywordWins(keywords: seq<string>, pages: seq<SearchPage>, m: nat, j: nat)
    requires |pages| >= |keywords|
    requires m < |SearchResults(keywords, pages)| && j < |keywords|
    requires Mentions(pages[j], SearchResults(keywords, pages)[m].url)
    ensures SearchResults(keywords, pages)[m] in SearchResults(keywords[..j + 1], pages)
  {
    var r := SearchResults(keywords, pages);
    var u := r[m].url;
    var early := SearchResults(keywords[..j + 1], pages);
    assert keywords[..j + 1][j] == keywords[j];
    SearchResultsComplete(keywords[..j + 1], pages, j, u);
    var p :| 0 <= p < |early| && Urls(early)[p] == u;
    SearchResultsGrow(keywords, pages, j + 1);
    SearchResultsDistinct(keywords, pages);
    assert r[p] == early[p];
    assert r[p].url == u;
    assert p == m;
  }

  // ---------------------------------------------------------------------------
  // Detail page

  /** A `.download-button a, .btn-download` element: its text and its href ("" if none). */
  datatype Button = Button(text: string, href: string)

  /**
   * A detail page as the selectors see it: the href of the first anchor containing
   * "SHORT" and of the first containing "LONG" (None when there is none), the download
   * buttons, and the text of the description element.
   */
  datatype DetailPage =
    | DetailError
    | Detail(shortHref: Option<string>, longHref: Option<string>, buttons: seq<Button>,
             descriptionText: Option<string>)

  /** The kind a lower-cased text or URL names: "short" is checked before "long". */
  function Kind(s: string): (k: string)
    ensures k in {"short", "long", "default"}
  {
    if Contains(Lower(s), "short") then "short"
    else if Contains(Lower(s), "long") then "long"
    else "default"
  }

  /** "short" exactly when the lowered text contains it; "long" only when it does not. */
  lemma KindOrder(s: string)
    ensures Kind(s) == "short" <==> Contains(Lower(s), "short")
    ensures Kind(s) == "long" <==> !Contains(Lower(s), "short") && Contains(Lower(s), "long")
    ensures Kind(s) == "default" <==> !Contains(Lower(s), "short") && !Contains(Lower(s), "long")
  {
  }

  /** Whether a button is accepted by the fallback, with the given kind. */
  predicate Mp3Of(b: Button, k: string) {
    b.href != "" && EndsWith(b.href, ".mp3") && Kind(b.text) == k
  }

  /** The fallback pass over the buttons: only hrefs ending in ".mp3", every kind overwriting. */
  function ButtonLinks(buttons: seq<Button>): Links {
    if buttons == [] then []
    else
      var prev := ButtonLinks(buttons[..|buttons| - 1]);
      var b := buttons[|buttons| - 1];
      if b.href != "" && EndsWith(b.href, ".mp3") then Put(prev, Kind(b.text), b.href) else prev
  }

  /** The SHORT and LONG anchors first; the buttons only when neither was found. */
  function DetailLinks(shortHref: Option<string>, longHref: Option<string>, buttons: seq<Button>): Links {
    var d: Links := if shortHref.Some? then Put([], "short", shortHref.value) else [];
    var d' := if longHref.Some? then Put(d, "long", longHref.value) else d;
    if d' == [] then ButtonLinks(buttons) else d'
  }

  /** What `get_music_details` returns: the record with links and description set. */
  function Details(info: MusicInfo, page: DetailPage): MusicInfo {
    match page
    case DetailError => info.(downloadLinks := Some([]), description := Some(""))
    case Detail(s, l, bs, t) =>
      info.(downloadLinks := Some(DetailLinks(s, l, bs)), description := Some(if t.Some? then Strip(t.value) else ""))
  }

  /** The fallback loop of `get_music_details` over the download buttons. */
  method FallbackLinks(buttons: seq<Button>) returns (links: Links)
    ensures links == ButtonLinks(buttons)
  {
    links := [];
    var i := 0;
    while i < |buttons|
      invariant 0 <= i <= |buttons|
      invariant links == ButtonLinks(buttons[..i])
    {
      assert buttons[..i + 1][..i] == buttons[..i];
      var b := buttons[i];
      if b.href != "" && EndsWith(b.href, ".mp3") {
        links := Put(links, Kind(b.text), b.href);
      }
      i := i + 1;
    }
    assert buttons[..i] == buttons;
  }

  /** `get_music_details`: the record gets its links and its description. */
  method GetMusicDetails(info: MusicInfo, page: DetailPage) returns (r: MusicInfo)
    ensures r == Details(info, page)
  {
    if page.DetailError? {
      return info.(downloadLinks := Some([]), description := Some(""));
    }
    var links: Links := [];
    if page.shortHref.Some? {
      links := Put(links, "short", page.shortHref.value);
    }
    if page.longHref.Some? {
      links := Put(links, "long", page.longHref.value);
    }
    assert links == DetailLinks(page.shortHref, page.longHref, []) || links == [];
    if links == [] {
      links := FallbackLinks(page.buttons);
    }
    var description := "";
    if page.descriptionText.Some? {
      description := Strip(page.descriptionText.value);
    }
    return info.(downloadLinks := Some(links), description := Some(description));
  }

  lemma {:induction false} ButtonLinksValid(buttons: seq<Button>)
    ensures Valid(ButtonLinks(buttons))
  {
    if buttons != [] {
      ButtonLinksValid(buttons[..|buttons| - 1]);
      var b := buttons[|buttons| - 1];
      PutValid(ButtonLinks(buttons[..|buttons| - 1]), Kind(b.text), b.href);
    }
  }

  /** The fallback has a kind exactly when some ".mp3" button has it. */
  lemma {:induction false} ButtonLinksHas(buttons: seq<Button>, k: string)
    ensures Has(ButtonLinks(buttons), k) <==> exists i :: 0 <= i < |buttons| && Mp3Of(buttons[i], k)
  {
    if Has(ButtonLinks(buttons), k) {
      var i := ButtonLinksHasWitness(buttons, k);
    }
    if exists i :: 0 <= i < |buttons| && Mp3Of(buttons[i], k) {
      var i :| 0 <= i < |buttons| && Mp3Of(buttons[i], k);
      ButtonLinksHasMp3(buttons, k, i);
    }
  }

  lemma {:induction false} ButtonLinksHasMp3(buttons: seq<Button>, k: string, i: nat)
    requires i < |buttons| && Mp3Of(buttons[i], k)
    ensures Has(ButtonLinks(buttons), k)
  {
    var n := |buttons| - 1;
    var init := buttons[..n];
    var b := buttons[n];
    var prev := ButtonLinks(init);
    if b.href != "" && EndsWith(b.href, ".mp3") {
      assert ButtonLinks(buttons) == Put(prev, Kind(b.text), b.href);
      if i < n {
        assert init[i] == buttons[i];
        ButtonLinksHasMp3(init, k, i);
      }
      PutHas(prev, Kind(b.text), b.href, k);
    } else {
      assert ButtonLinks(buttons) == prev;
      assert i < n;
      assert init[i] == buttons[i];
      ButtonLinksHasMp3(init, k, i);
    }
  }

  lemma {:induction false} ButtonLinksHasWitness(buttons: seq<Button>, k: string) returns (i: nat)
    requires Has(ButtonLinks(buttons), k)
    ensures i < |buttons| && Mp3Of(buttons[i], k)
  {
    var n := |buttons| - 1;
    var init := buttons[..n];
    var b := buttons[n];
    if Mp3Of(b, k) {
      i := n;
    } else {
      if b.href != "" && EndsWith(b.href, ".mp3") {
        assert ButtonLinks(buttons) == Put(ButtonLinks(init), Kind(b.text), b.href);
        PutHas(ButtonLinks(init), Kind(b.text), b.href, k);
      } else {
        assert ButtonLinks(buttons) == ButtonLinks(init);
      }
      i := ButtonLinksHasWitness(init, k);
      assert buttons[i] == init[i];
    }
  }


  /** Every key of the fallback is one of the three kinds. */
  lemma ButtonLinksKinds(buttons: seq<Button>, k: string)
    requires Has(ButtonLinks(buttons), k)
    ensures k in {"short", "long", "default"}
  {
    ButtonLinksHas(buttons, k);
  }

  /** In the fallback a later ".mp3" button overwrites an earlier one of the same kind. */
  lemma {:induction false} ButtonLinksLast(buttons: seq<Button>, k: string, i: nat)
    requires i < |buttons| && Mp3Of(buttons[i], k)
    requires forall j :: i < j < |buttons| ==> !Mp3Of(buttons[j], k)
    ensures Has(ButtonLinks(buttons), k) && Get(ButtonLinks(buttons), k) == buttons[i].href
  {
    var n := |buttons| - 1;
    var init := buttons[..n];
    var b := buttons[n];
    var prev := ButtonLinks(init);
    ButtonLinksValid(init);
    if i == n {
      PutGet(prev, k, b.href, k);
    } else {
      assert init[i] == buttons[i];
      assert forall j :: i < j < |init| ==> init[j] == buttons[j];
      ButtonLinksLast(init, k, i);
      if b.href != "" && EndsWith(b.href, ".mp3") {
        assert Kind(b.text) != k;
        assert Has(Put(prev, Kind(b.text), b.href), k) by {
          assert k in Keys(prev);
        }
        PutGet(prev, Kind(b.text), b.href, k);
      }
    }
  }

  /**
   * The fallback runs only when the page has neither a SHORT nor a LONG anchor; with
   * either, the links are exactly those anchors' hrefs.
   */
  lemma DetailLinksFallback(shortHref: Option<string>, longHref: Option<string>, buttons: seq<Button>)
    ensures shortHref.None? && longHref.None? ==> DetailLinks(shortHref, longHref, buttons) == ButtonLinks(buttons)
    ensures shortHref.Some? && longHref.Some? ==>
              DetailLinks(shortHref, longHref, buttons) == [("short", shortHref.value), ("long", longHref.value)]
    ensures shortHref.Some? && longHref.None? ==> DetailLinks(shortHref, longHref, buttons) == [("short", shortHref.value)]
    ensures shortHref.None? && longHref.Some? ==> DetailLinks(shortHref, longHref, buttons) == [("long", longHref.value)]
  {
    if shortHref.Some? {
      assert Keys<string, string>([("short", shortHref.value)]) == ["short"];
    }
  }

  // ---------------------------------------------------------------------------
  // Links straight from a page

  /**
   * A page for `extract_download_links_from_page`: for every `<script>`, the ".mp3"
   * URLs the regular expression found in its text (None when it has no text), then
   * every anchor whose href ends in ".mp3", as (href, text).
   */
  datatype LinkPage = LinkError | LinkPage(scripts: seq<Option<seq<string>>>, anchors: seq<(string, string)>)

  /** Assigning URLs in order onto `d`: the URL itself decides the kind, and every kind overwrites. */
  function PutUrls(d: Links, urls: seq<string>): Links {
    if urls == [] then d
    else
      var u := urls[|urls| - 1];
      Put(PutUrls(d, urls[..|urls| - 1]), Kind(u), u)
  }

  /** The script pass, starting from the empty dict. */
  function ScriptLinks(urls: seq<string>): Links {
    PutUrls([], urls)
  }

  /** The URLs of all scripts that have text, in order. */
  function ScriptUrls(scripts: seq<Option<seq<string>>>): seq<string> {
    if scripts == [] then []
    else
      var s := scripts[|scripts| - 1];
      ScriptUrls(scripts[..|scripts| - 1]) + (if s.Some? then s.value else [])
  }

  /** The anchor pass: the text decides the kind; "default" only fills a missing entry. */
  function AnchorLinks(d: Links, anchors: seq<(string, string)>): Links {
    if anchors == [] then d
    else
      var prev := AnchorLinks(d, anchors[..|anchors| - 1]);
      var (href, text) := anchors[|anchors| - 1];
      var k := Kind(text);
      if k == "default" then SetDefault(prev, "default", href) else Put(prev, k, href)
  }

  /** What `extract_download_links_from_page` returns; an error gives the empty dict. */
  function PageLinks(page: LinkPage): Links {
    match page
    case LinkError => []
    case LinkPage(scripts, anchors) => AnchorLinks(ScriptLinks(ScriptUrls(scripts)), anchors)
  }

  /** Assigning one run of URLs after another is assigning the whole run. */
  lemma {:induction false} PutUrlsAppend(d: Links, a: seq<string>, b: seq<string>)
    ensures PutUrls(d, a + b) == PutUrls(PutUrls(d, a), b)
  {
    if b == [] {
      assert a + b == a;
    } else {
      var n := |b| - 1;
      assert (a + b)[..|a + b| - 1] == a + b[..n];
      assert (a + b)[|a + b| - 1] == b[n];
      PutUrlsAppend(d, a, b[..n]);
    }
  }

  /** One more script adds its URLs when it has text and none otherwise. */
  lemma ScriptUrlsStep(scripts: seq<Option<seq<string>>>, s: nat)
    requires s < |scripts|
    ensures scripts[s].Some? ==> ScriptUrls(scripts[..s + 1]) == ScriptUrls(scripts[..s]) + scripts[s].value
    ensures scripts[s].None? ==> ScriptUrls(scripts[..s + 1]) == ScriptUrls(scripts[..s])
  {
    assert scripts[..s + 1][..s] == scripts[..s];
    assert scripts[..s + 1][s] == scripts[s];
    if scripts[s].None? {
      assert ScriptUrls(scripts[..s]) + [] == ScriptUrls(scripts[..s]);
    }
  }

  /** The inner loop of the script pass, over the URLs found in one script. */
  method PutScriptUrls(links: Links, urls: seq<string>) returns (r: Links)
    ensures r == PutUrls(links, urls)
  {
    r := links;
    var j := 0;
    while j < |urls|
      invariant 0 <= j <= |urls|
      invariant r == PutUrls(links, urls[..j])
    {
      assert urls[..j + 1][..j] == urls[..j];
      r := Put(r, Kind(urls[j]), urls[j]);
      j := j + 1;
    }
    assert urls[..j] == urls;
  }

  /** The script pass of `extract_download_links_from_page`, over every script's URLs. */
  method ScriptPass(scripts: seq<Option<seq<string>>>) returns (links: Links)
    ensures links == ScriptLinks(ScriptUrls(scripts))
  {
    links := [];
    var s := 0;
    while s < |scripts|
      invariant 0 <= s <= |scripts|
      invariant links == ScriptLinks(ScriptUrls(scripts[..s]))
    {
      ScriptUrlsStep(scripts, s);
      if scripts[s].Some? {
        PutUrlsAppend([], ScriptUrls(scripts[..s]), scripts[s].value);
        links := PutScriptUrls(links, scripts[s].value);
      }
      s := s + 1;
    }
    assert scripts[..s] == scripts;
  }

  /** The anchor pass of `extract_download_links_from_page`. */
  method AnchorPass(base: Links, anchors: seq<(string, string)>) returns (links: Links)
    ensures links == AnchorLinks(base, anchors)
  {
    links := base;
    var a := 0;
    while a < |anchors|
      invariant 0 <= a <= |anchors|
      invariant links == AnchorLinks(base, anchors[..a])
    {
      assert anchors[..a + 1][..a] == anchors[..a];
      var (href, text) := anchors[a];
      var k := Kind(text);
      if k == "default" {
        links := SetDefault(links, "default", href);
      } else {
        links := Put(links, k, href);
      }
      a := a + 1;
    }
    assert anchors[..a] == anchors;
  }

  /** `extract_download_links_from_page`: the script pass, then the anchor pass. */
  method ExtractDownloadLinks(page: LinkPage) returns (links: Links)
    ensures links == PageLinks(page)
  {
    if page.LinkError? {
      return [];
    }
    links := ScriptPass(page.scripts);
    links := AnchorPass(links, page.anchors);
  }

  lemma {:induction false} ScriptLinksValid(urls: seq<string>)
    ensures Valid(ScriptLinks(urls))
  {
    if urls != [] {
      ScriptLinksValid(urls[..|urls| - 1]);
      PutValid(ScriptLinks(urls[..|urls| - 1]), Kind(urls[|urls| - 1]), urls[|urls| - 1]);
    }
  }

  /** The script pass has a kind exactly when some URL is of that kind. */
  lemma {:induction false} ScriptLinksHas(urls: seq<string>, k: string)
    ensures Has(ScriptLinks(urls), k) <==> exists i :: 0 <= i < |urls| && Kind(urls[i]) == k
  {
    if Has(ScriptLinks(urls), k) {
      var i := ScriptLinksHasWitness(urls, k);
    }
    if exists i :: 0 <= i < |urls| && Kind(urls[i]) == k {
      var i :| 0 <= i < |urls| && Kind(urls[i]) == k;
      ScriptLinksHasKind(urls, k, i);
    }
  }

  lemma {:induction false} ScriptLinksHasKind(urls: seq<string>, k: string, i: nat)
    requires i < |urls| && Kind(urls[i]) == k
    ensures Has(ScriptLinks(urls), k)
  {
    var n := |urls| - 1;
    var init := urls[..n];
    assert ScriptLinks(urls) == Put(ScriptLinks(init), Kind(urls[n]), urls[n]);
    if i < n {
      assert init[i] == urls[i];
      ScriptLinksHasKind(init, k, i);
    }
    PutHas(ScriptLinks(init), Kind(urls[n]), urls[n], k);
  }

  lemma {:induction false} ScriptLinksHasWitness(urls: seq<string>, k: string) returns (i: nat)
    requires Has(ScriptLinks(urls), k)
    ensures i < |urls| && Kind(urls[i]) == k
  {
    var n := |urls| - 1;
    var init := urls[..n];
    assert ScriptLinks(urls) == Put(ScriptLinks(init), Kind(urls[n]), urls[n]);
    PutHas(ScriptLinks(init), Kind(urls[n]), urls[n], k);
    if Kind(urls[n]) == k {
      i := n;
    } else {
      i := ScriptLinksHasWitness(init, k);
      assert urls[i] == init[i];
    }
  }


  /** In the script pass a later URL overwrites an earlier one of the same kind. */
  lemma {:induction false} ScriptLinksLast(urls: seq<string>, k: string, i: nat)
    requires i < |urls| && Kind(urls[i]) == k
    requires forall j :: i < j < |urls| ==> Kind(urls[j]) != k
    ensures Has(ScriptLinks(urls), k) && Get(ScriptLinks(urls), k) == urls[i]
  {
    var n := |urls| - 1;
    var init := urls[..n];
    var u := urls[n];
    var prev := ScriptLinks(init);
    ScriptLinksValid(init);
    if i == n {
      PutGet(prev, k, u, k);
    } else {
      assert init[i] == urls[i];
      assert forall j :: i < j < |init| ==> init[j] == urls[j];
      ScriptLinksLast(init, k, i);
      assert Has(Put(prev, Kind(u), u), k) by {
        assert k in Keys(prev);
      }
      PutGet(prev, Kind(u), u, k);
    }
  }

  /** A URL naming both "short" and "long" is a short link. */
  lemma ShortBeforeLong(u: string)
    requires Contains(Lower(u), "short") && Contains(Lower(u), "long")
    ensures Kind(u) == "short"
  {
  }

  /** In the anchor pass a default already found is kept. */
  lemma {:induction false} AnchorKeepsDefault(d: Links, anchors: seq<(string, string)>)
    requires Valid(d) && Has(d, "default")
    ensures Valid(AnchorLinks(d, anchors)) && Has(AnchorLinks(d, anchors), "default")
    ensures Get(AnchorLinks(d, anchors), "default") == Get(d, "default")
  {
    if anchors != [] {
      var init := anchors[..|anchors| - 1];
      AnchorKeepsDefault(d, init);
      var prev := AnchorLinks(d, init);
      var (href, text) := anchors[|anchors| - 1];
      var k := Kind(text);
      if k == "default" {
        SetDefaultGet(prev, "default", href, "default");
      } else {
        PutValid(prev, k, href);
        assert "default" in Keys(prev);
        PutGet(prev, k, href, "default");
      }
    }
  }

  /** In the anchor pass a later short or long anchor overwrites whatever came before. */
  lemma {:induction false} AnchorLinksLast(d: Links, anchors: seq<(string, string)>, k: string, i: nat)
    requires Valid(d) && k != "default"
    requires i < |anchors| && Kind(anchors[i].1) == k
    requires forall j :: i < j < |anchors| ==> Kind(anchors[j].1) != k
    ensures Valid(AnchorLinks(d, anchors))
    ensures Has(AnchorLinks(d, anchors), k) && Get(AnchorLinks(d, anchors), k) == anchors[i].0
  {
    var n := |anchors| - 1;
    var init := anchors[..n];
    var (href, text) := anchors[n];
    var prev := AnchorLinks(d, init);
    AnchorLinksValid(d, init);
    if i == n {
      PutGet(prev, k, href, k);
    } else {
      assert init[i] == anchors[i];
      assert forall j :: i < j < |init| ==> init[j] == anchors[j];
      AnchorLinksLast(d, init, k, i);
      assert k in Keys(prev);
      if Kind(text) == "default" {
        SetDefaultGet(prev, "default", href, k);
      } else {
        PutGet(prev, Kind(text), href, k);
      }
    }
  }

  lemma {:induction false} AnchorLinksValid(d: Links, anchors: seq<(string, string)>)
    requires Valid(d)
    ensures Valid(AnchorLinks(d, anchors))
  {
    if anchors != [] {
      var init := anchors[..|anchors| - 1];
      AnchorLinksValid(d, init);
      var prev := AnchorLinks(d, init);
      var (href, text) := anchors[|anchors| - 1];
      if Kind(text) == "default" {
        assert Valid(SetDefault(prev, "default", href)) by {
          if !Has(prev, "default") {
            SetDefaultGet(prev, "default", href, "default");
          }
        }
      } else {
        PutValid(prev, Kind(text), href);
      }
    }
  }

  /** On an error the record gets no links and an empty description, and extraction gives none. */
  lemma DetailsOnError(info: MusicInfo)
    ensures Details(info, DetailError) == info.(downloadLinks := Some([]), description := Some(""))
    ensures PageLinks(LinkError) == []
  {
  }
}
