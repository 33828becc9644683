// The News dialogs: dialogs/news_dialog.py and its Kotlin counterpart
// cognitive/dialogmanagement/dialog/News.kt. Both ask for news categories unless the message
// already names some (entities of the group "news"), then list the recent headlines of each
// category's RSS providers. The feeds and the clock are inputs of the turn; the replies the
// dialogs send are recorded in their fields.

module News {
  import opened Text
  import opened Nlu
  import opened DialogEngine
  import opened Sorting

  /** At most this many headlines are listed per provider (news_dialog.py:46, News.kt:29). */
  const MaxNews: nat := 10

  /** One day in seconds: the window of recent news. */
  const Day: int := 86400

  datatype Provider = Provider(name: string, url: string)

  /** The category names the message carries: the names of its "news" entities, in order. */
  function NewsCategories(entities: seq<Entity>): (cats: seq<string>)
    ensures |cats| <= |entities|
  {
    if entities == [] then []
    else (if entities[0].group == "news" then [entities[0].name] else []) + NewsCategories(entities[1..])
  }

  lemma {:induction false} NewsCategoriesExactly(entities: seq<Entity>, c: string)
    ensures c in NewsCategories(entities) <==> exists e :: e in entities && e.group == "news" && e.name == c
  {
    if entities != [] {
      NewsCategoriesExactly(entities[1..], c);
      if c in NewsCategories(entities[1..]) {
        var e :| e in entities[1..] && e.group == "news" && e.name == c;
        assert e in entities;
      }
      if exists e :: e in entities && e.group == "news" && e.name == c {
        var e :| e in entities && e.group == "news" && e.name == c;
        if e != entities[0] {
          assert e in entities[1..];
        }
      }
    }
  }

  // ---------------------------------------------------------------------------
  // dialogs/news_dialog.py

  /** The categories and their providers (news_dialog.py:27-32), in the dict's order. */
  const PyCategoryNames: seq<string> := ["Allgemein", "Sport", "IT", "Netcup"]

  const PyProviders: map<string, seq<Provider>> := map[
    "Allgemein" := [Provider("Tagesschau", "https://www.tagesschau.de/xml/rss2")],
    "Sport" := [Provider("Sport1", "https://www.sport1.de/news.rss")],
    "IT" := [Provider("heise online", "https://www.heise.de/rss/heise-top-atom.xml")],
    "Netcup" := [Provider("Netcup", "https://www.netcup-sonderangebote.de/feed")]
  ]

  lemma PyCategoryNamesAreTheKeys()
    ensures forall c :: c in PyProviders <==> c in PyCategoryNames
  {
  }

  /** A feed entry: its title, its id (the article's URL) and its publication time in seconds
      since the epoch, each when the feed gives one. */
  datatype PyEntry = PyEntry(title: Option<string>, id: Option<string>, published: Option<int>)

  /** The entities (None when the NLU was given no text, cognitive.py:107-108), the entries of
      each feed URL, the clock in seconds since the epoch, and the offset of the local time zone
      in seconds. */
  datatype PyNewsTurn = PyNewsTurn(entities: Option<seq<Entity>>, feeds: string -> seq<PyEntry>, now: int, utcOffset: int)

  /** `_last24h` only reads entries that have a publication time; the model reads 0 for others. */
  function PublishedAt(e: PyEntry): int {
    match e.published
    case Some(p) => p
    case None => 0
  }

  /** Every entry has a publication time: otherwise reading `published_parsed` raises. */
  predicate Dated(feed: seq<PyEntry>) {
    forall k :: 0 <= k < |feed| ==> feed[k].published.Some?
  }

  /** `_last24h` (news_dialog.py:101-105): published less than a day before now. */
  predicate Last24h(e: PyEntry, now: int) {
    now - PublishedAt(e) < Day
  }

  function Recent(feed: seq<PyEntry>, now: int): (r: seq<PyEntry>)
    ensures |r| <= |feed|
    ensures forall e :: e in r <==> e in feed && Last24h(e, now)
  {
    if feed == [] then []
    else (if Last24h(feed[0], now) then [feed[0]] else []) + Recent(feed[1..], now)
  }

  /** The local time of day of an entry, which news_dialog.py:82 sorts by. */
  function TimeOfDay(e: PyEntry, utcOffset: int): int {
    (PublishedAt(e) + utcOffset) % Day
  }

  function ByTimeOfDay(utcOffset: int): PyEntry -> int {
    e => TimeOfDay(e, utcOffset)
  }

  /** The listed entries as written: the recent ones by time of day, latest first, at most
      MaxNews of them. */
  function HeadlinesAsWritten(feed: seq<PyEntry>, now: int, utcOffset: int): seq<PyEntry> {
    Take(SortDesc(Recent(feed, now), ByTimeOfDay(utcOffset)), MaxNews)
  }

  /** The listed entries as intended: the recent ones, newest first, at most MaxNews of them. */
  function Headlines(feed: seq<PyEntry>, now: int): seq<PyEntry> {
    Take(SortDesc(Recent(feed, now), PublishedAt), MaxNews)
  }

  /** The headlines are the at most MaxNews newest entries of the last day, newest first. */
  lemma HeadlinesAreNewestOfTheDay(feed: seq<PyEntry>, now: int)
    ensures var h := Headlines(feed, now);
            && |h| == Min(|Recent(feed, now)|, MaxNews)
            && (forall e :: e in h ==> e in feed && now - PublishedAt(e) < Day)
            && (forall i, j :: 0 <= i < j < |h| ==> PublishedAt(h[i]) >= PublishedAt(h[j]))
            && (forall e, x :: e in feed && Last24h(e, now) && e !in h && x in h ==> PublishedAt(e) <= PublishedAt(x))
  {
    TopByKey(Recent(feed, now), PublishedAt, MaxNews);
  }

  /** Sorting by the time of day does not list the newest first: an entry from 23:00 yesterday
      is listed before one from 09:00 today. */
  lemma PyNewsSortsByTimeOfDay()
    ensures PublishedAt(PyEntry(Some("a"), Some("https://a"), Some(82800))) < PublishedAt(PyEntry(Some("b"), Some("https://b"), Some(118800)))
    ensures HeadlinesAsWritten([PyEntry(Some("a"), Some("https://a"), Some(82800)), PyEntry(Some("b"), Some("https://b"), Some(118800))], 122400, 0)
            == [PyEntry(Some("a"), Some("https://a"), Some(82800)), PyEntry(Some("b"), Some("https://b"), Some(118800))]
    ensures Headlines([PyEntry(Some("a"), Some("https://a"), Some(82800)), PyEntry(Some("b"), Some("https://b"), Some(118800))], 122400)
            == [PyEntry(Some("b"), Some("https://b"), Some(118800)), PyEntry(Some("a"), Some("https://a"), Some(82800))]
  {
    var older := PyEntry(Some("a"), Some("https://a"), Some(82800));
    var newer := PyEntry(Some("b"), Some("https://b"), Some(118800));
    var feed := [older, newer];
    assert feed[1..] == [newer] && feed[1..][1..] == [];
    assert Recent(feed, 122400) == feed;
    assert feed[..1] == [older];
    var byTime := ByTimeOfDay(0);
    assert byTime(older) == 82800 && byTime(newer) == 32400;
    assert SortDesc([older], byTime) == [older];
    assert InsertDesc([older], newer, byTime) == [older] + InsertDesc([], newer, byTime);
    assert SortDesc(feed, byTime) == feed;
    assert Take(feed, MaxNews) == feed;
    assert SortDesc([older], PublishedAt) == [older];
    assert SortDesc(feed, PublishedAt) == [newer, older];
    assert Take([newer, older], MaxNews) == [newer, older];
  }

  /** The URL rewrite of news_dialog.py:87-89. */
  function RewriteUrl(url: string): string {
    Replace(Replace(url, "https://www.", "https://"), "http://www.", "http://")
  }

  /** The leading "www." of an https or http URL is dropped; a URL whose rest holds neither
      prefix is not changed otherwise. */
  lemma UrlRewrite(rest: string)
    requires Find(rest, "https://www.").None? && Find(rest, "http://www.").None?
    ensures RewriteUrl("https://www." + rest) == "https://" + rest
    ensures RewriteUrl("http://www." + rest) == "http://" + rest
    ensures RewriteUrl(rest) == rest
  {
    ReplaceByFirstOccurrence(rest, "https://www.", "https://");
    ReplaceByFirstOccurrence(rest, "http://www.", "http://");
    RewriteHttps(rest);
    RewriteHttp(rest);
  }

  /** https: the first replacement drops "www.", the second finds nothing. */
  lemma RewriteHttps(rest: string)
    requires Replace(rest, "https://www.", "https://") == rest && Replace(rest, "http://www.", "http://") == rest
    ensures RewriteUrl("https://www." + rest) == "https://" + rest
  {
    var ps, pp, a := "https://www.", "http://www.", "https://";
    assert (ps + rest)[..|ps|] == ps && (ps + rest)[|ps|..] == rest;
    assert Replace(ps + rest, ps, a) == a + rest;
    forall j | 0 <= j < |a| ensures !OccursAt(a + rest, pp, j) {
      NotOccursByChar(a + rest, pp, j, if j == 0 then 4 else 0);
    }
    ReplaceKeepsPrefix(a, rest, pp, "http://");
  }

  /** http: the first replacement finds nothing, the second drops "www.". */
  lemma RewriteHttp(rest: string)
    requires Replace(rest, "https://www.", "https://") == rest && Replace(rest, "http://www.", "http://") == rest
    ensures RewriteUrl("http://www." + rest) == "http://" + rest
  {
    var ps, pp := "https://www.", "http://www.";
    forall j | 0 <= j < |pp| ensures !OccursAt(pp + rest, ps, j) {
      NotOccursByChar(pp + rest, ps, j, if j == 0 then 4 else 0);
    }
    ReplaceKeepsPrefix(pp, rest, ps, "https://");
    assert (pp + rest)[..|pp|] == pp && (pp + rest)[|pp|..] == rest;
    assert Replace(pp + rest, pp, "http://") == "http://" + rest;
  }

  /** A listed entry has the keys "id" and "title"; reading a missing one raises KeyError. */
  predicate Complete(e: PyEntry) {
    e.id.Some? && e.title.Some?
  }

  predicate AllComplete(listed: seq<PyEntry>) {
    forall k :: 0 <= k < |listed| ==> Complete(listed[k])
  }

  /** The text of a key, which only matters for complete entries. */
  function KeyText(o: Option<string>): string {
    if o.Some? then o.value else ""
  }

  /** One line per listed entry, and the block of one provider (news_dialog.py:79, 87-91). */
  function Line(e: PyEntry): string {
    KeyText(e.title) + " (<" + RewriteUrl(KeyText(e.id)) + ">)\n"
  }

  function Lines(listed: seq<PyEntry>): string {
    if listed == [] then "" else Lines(listed[..|listed| - 1]) + Line(listed[|listed| - 1])
  }

  function ProviderReply(name: string, listed: seq<PyEntry>): string {
    "\n**" + name + "**\n" + Lines(listed)
  }

  /** Listing one more complete entry adds its line and keeps the prefix complete. */
  lemma ListedOneMore(name: string, sorted: seq<PyEntry>, idx: nat)
    requires idx < |sorted| && AllComplete(sorted[..idx]) && Complete(sorted[idx])
    ensures ProviderReply(name, sorted[..idx + 1]) == ProviderReply(name, sorted[..idx]) + Line(sorted[idx])
    ensures AllComplete(sorted[..idx + 1])
  {
    assert sorted[..idx + 1][..idx] == sorted[..idx];
    assert Lines(sorted[..idx + 1]) == Lines(sorted[..idx]) + Line(sorted[idx]);
    assert forall k :: 0 <= k < idx + 1 ==> sorted[..idx + 1][k] == sorted[k];
  }

  /** The listing loop of news_dialog.py:84-91: enumerate the sorted entries and stop at
      index MaxNews. It raises (ok is false) exactly when a listed entry lacks a key. */
  method ListNews(name: string, sorted: seq<PyEntry>) returns (response: string, ok: bool)
    ensures ok <==> AllComplete(Take(sorted, MaxNews))
    ensures ok ==> response == ProviderReply(name, Take(sorted, MaxNews))
  {
    response := "\n**" + name + "**\n";
    ok := true;
    var idx := 0;
    while idx < |sorted|
      invariant 0 <= idx <= |sorted| && idx <= MaxNews
      invariant response == ProviderReply(name, sorted[..idx])
      invariant AllComplete(sorted[..idx])
    {
      if idx >= MaxNews {
        break;
      }
      var news := sorted[idx];
      if news.id.None? || news.title.None? {
        assert Take(sorted, MaxNews)[idx] == news;
        ok := false;
        return;
      }
      ListedOneMore(name, sorted, idx);
      response := response + Line(news);
      idx := idx + 1;
    }
    assert Take(sorted, MaxNews) == sorted[..idx];
  }

  /** What the category loop of `_news_step` sent, whether some provider had recent news, and
      whether it raised: a category without providers is a KeyError, an undated entry an
      AttributeError, a listed entry without "id" or "title" a KeyError. */
  datatype PyNewsRun = PyNewsRun(replies: seq<string>, anyNews: bool, failed: bool)

  function ProvidersRun(ps: seq<Provider>, t: PyNewsTurn): (run: PyNewsRun)
    ensures |run.replies| <= |ps|
  {
    if ps == [] then PyNewsRun([], false, false)
    else
      var prev := ProvidersRun(ps[..|ps| - 1], t);
      var p := ps[|ps| - 1];
      var feed := t.feeds(p.url);
      if prev.failed then prev
      else if !Listable(feed, t.now) then prev.(failed := true)
      else PyNewsRun(prev.replies + [ProviderReply(p.name, Headlines(feed, t.now))],
                     prev.anyNews || Recent(feed, t.now) != [], false)
  }

  /** A feed the provider loop gets through: every entry is dated and every listed one complete. */
  predicate Listable(feed: seq<PyEntry>, now: int) {
    Dated(feed) && AllComplete(Headlines(feed, now))
  }

  function CategoriesRun(cats: seq<string>, t: PyNewsTurn): PyNewsRun {
    if cats == [] then PyNewsRun([], false, false)
    else
      var prev := CategoriesRun(cats[..|cats| - 1], t);
      var c := cats[|cats| - 1];
      if prev.failed then prev
      else if c !in PyProviders then prev.(failed := true)
      else
        var run := ProvidersRun(PyProviders[c], t);
        PyNewsRun(prev.replies + run.replies, prev.anyNews || run.anyNews, run.failed)
  }

  /** The run ends without raising exactly when every provider's feed is dated and every entry
      it lists has an id and a title. */
  lemma {:induction false} ProvidersRunFails(ps: seq<Provider>, t: PyNewsTurn)
    ensures !ProvidersRun(ps, t).failed <==> forall k :: 0 <= k < |ps| ==> Listable(t.feeds(ps[k].url), t.now)
  {
    if ps != [] {
      var i := |ps| - 1;
      ProvidersRunFails(ps[..i], t);
      assert forall k :: 0 <= k < i ==> ps[..i][k] == ps[k];
    }
  }

  lemma {:induction false} ProvidersRunNews(ps: seq<Provider>, t: PyNewsTurn)
    requires !ProvidersRun(ps, t).failed
    ensures |ProvidersRun(ps, t).replies| == |ps|
    ensures ProvidersRun(ps, t).anyNews <==> exists k :: 0 <= k < |ps| && Recent(t.feeds(ps[k].url), t.now) != []
  {
    if ps != [] {
      var i := |ps| - 1;
      var prev := ProvidersRun(ps[..i], t);
      assert !prev.failed;
      ProvidersRunNews(ps[..i], t);
      assert forall k :: 0 <= k < i ==> ps[..i][k] == ps[k];
      if prev.anyNews {
        var k :| 0 <= k < i && Recent(t.feeds(ps[..i][k].url), t.now) != [];
        assert Recent(t.feeds(ps[k].url), t.now) != [];
      }
    }
  }

  /** After a raising category or provider, the loop sends nothing more. */
  lemma {:induction false} ProvidersRunStops(ps: seq<Provider>, k: nat, t: PyNewsTurn)
    requires k <= |ps| && ProvidersRun(ps[..k], t).failed
    ensures ProvidersRun(ps, t) == ProvidersRun(ps[..k], t)
    decreases |ps| - k
  {
    if k < |ps| {
      assert ps[..k + 1][..k] == ps[..k];
      ProvidersRunStops(ps, k + 1, t);
    } else {
      assert ps[..k] == ps;
    }
  }

  lemma {:induction false} CategoriesRunStops(cats: seq<string>, k: nat, t: PyNewsTurn)
    requires k <= |cats| && CategoriesRun(cats[..k], t).failed
    ensures CategoriesRun(cats, t) == CategoriesRun(cats[..k], t)
    decreases |cats| - k
  {
    if k < |cats| {
      assert cats[..k + 1][..k] == cats[..k];
      CategoriesRunStops(cats, k + 1, t);
    } else {
      assert cats[..k] == cats;
    }
  }

  lemma CategoriesRunStep(cats: seq<string>, i: nat, t: PyNewsTurn)
    requires i < |cats|
    ensures var prev := CategoriesRun(cats[..i], t);
            CategoriesRun(cats[..i + 1], t)
            == if prev.failed then prev
               else if cats[i] !in PyProviders then prev.(failed := true)
               else
                 var run := ProvidersRun(PyProviders[cats[i]], t);
                 PyNewsRun(prev.replies + run.replies, prev.anyNews || run.anyNews, run.failed)
  {
    assert cats[..i + 1][..i] == cats[..i];
  }

  /** The loops of `_news_step` (news_dialog.py:76-95): for each category, for each of its
      providers, read the feed, list its headlines and note whether it had recent news. */
  method NewsLoop(cats: seq<string>, t: PyNewsTurn) returns (run: PyNewsRun)
    ensures run == CategoriesRun(cats, t)
  {
    var replies: seq<string> := [];
    var sent := false;
    var i := 0;
    while i < |cats|
      invariant 0 <= i <= |cats|
      invariant CategoriesRun(cats[..i], t) == PyNewsRun(replies, sent, false)
    {
      var category := cats[i];
      CategoriesRunStep(cats, i, t);
      if category !in PyProviders {
        CategoriesRunStops(cats, i + 1, t);
        return PyNewsRun(replies, sent, true);
      }
      var inner := ProvidersLoop(PyProviders[category], t);
      replies := replies + inner.replies;
      sent := sent || inner.anyNews;
      if inner.failed {
        CategoriesRunStops(cats, i + 1, t);
        return PyNewsRun(replies, sent, true);
      }
      i := i + 1;
    }
    assert cats[..i] == cats;
    run := PyNewsRun(replies, sent, false);
  }

  /** The inner loop over one category's providers; a feed without dates, or a listed entry
      without a key, raises, which ends the loop and the outer one. */
  method ProvidersLoop(ps: seq<Provider>, t: PyNewsTurn) returns (run: PyNewsRun)
    ensures run == ProvidersRun(ps, t)
  {
    var replies: seq<string> := [];
    var sent := false;
    var j := 0;
    while j < |ps|
      invariant 0 <= j <= |ps|
      invariant ProvidersRun(ps[..j], t) == PyNewsRun(replies, sent, false)
    {
      var provider := ps[j];
      assert ps[..j + 1][..j] == ps[..j];
      var feed := t.feeds(provider.url);
      if !Dated(feed) {
        ProvidersRunStops(ps, j + 1, t);
        return PyNewsRun(replies, sent, true);
      }
      var response, ok := ListNews(provider.name, SortDesc(Recent(feed, t.now), PublishedAt));
      if !ok {
        ProvidersRunStops(ps, j + 1, t);
        return PyNewsRun(replies, sent, true);
      }
      replies := replies + [response];
      if |Recent(feed, t.now)| != 0 {
        sent := true;
      }
      j := j + 1;
    }
    assert ps[..j] == ps;
    run := PyNewsRun(replies, sent, false);
  }

  datatype PyNewsStep = SelectNews | NewsStep

  /** The replies the dialog sent, in order. */
  datatype PyNewsFields = PyNewsFields(replies: seq<string>)

  const PyQuestion: string := "Für welche Kategorie(n) willst Du Nachrichten?\n" + Join(", ", PyCategoryNames)
  const PyNoCategory: string := "Leider habe ich keine Kategorie erkannt. Dialog erstmal beenden ;)"
  const PyNoNews: string := "Keine neuen Nachrichten."

  function PyKeepFields(f: PyNewsFields): PyNewsFields { f }

  /** The categories a message names, or None when the NLU reported no entities. */
  function PyCategories(t: PyNewsTurn): Option<seq<string>> {
    if t.entities.None? then None else Some(NewsCategories(t.entities.value))
  }

  /** The steps (news_dialog.py:54-99). Both filter the entities, which raises on None. */
  function PyNewsExec(s: PyNewsStep, f: PyNewsFields, t: PyNewsTurn): StepOutcome<PyNewsStep, PyNewsFields> {
    if t.entities.None? then Raised([], f)
    else
    match s
    case SelectNews =>
      if NewsCategories(t.entities.value) != [] then Returned(Some(Next), [NewsStep], f)
      else Returned(Some(WaitForInput), [NewsStep], f.(replies := f.replies + [PyQuestion]))
    case NewsStep =>
      var cats := NewsCategories(t.entities.value);
      if cats == [] then Returned(Some(Next), [], f.(replies := f.replies + [PyNoCategory]))
      else
        var run := CategoriesRun(cats, t);
        if run.failed then Raised([], f.(replies := f.replies + run.replies))
        else Returned(Some(Next), [], f.(replies := f.replies + run.replies + (if run.anyNews then [] else [PyNoNews])))
  }

  function PyNewsWeight(s: PyNewsStep): nat {
    if s == SelectNews then 2 else 1
  }

  lemma PyNewsTerminates()
    ensures Terminating(PyNewsExec, PyNewsWeight)
  {
  }

  /** With categories in the first message, the news step runs in the same proceed: it ends
      the dialog with NEXT and the listings, or raises, but never waits. */
  lemma PyNewsAtOnce(f: PyNewsFields, t: PyNewsTurn)
    requires PyCategories(t).Some? && PyCategories(t).value != []
    ensures Terminating(PyNewsExec, PyNewsWeight)
    ensures var (r, after) := ProceedSpec(PyNewsExec, PyNewsWeight, [SelectNews], PyKeepFields,
                                          DialogState([SelectNews], 0, f), t);
            var run := CategoriesRun(PyCategories(t).value, t);
            && r != Finished(WaitForInput)
            && (r == Finished(Next) <==> !run.failed)
            && (!run.failed ==> after == DialogState([SelectNews], 0, PyNewsFields(f.replies + run.replies + (if run.anyNews then [] else [PyNoNews]))))
  {
    PyNewsTerminates();
    LoopUnfold(PyNewsExec, PyNewsWeight, [SelectNews], 0, f, t);
    assert [SelectNews] + [NewsStep] == [SelectNews, NewsStep];
    var run := CategoriesRun(PyCategories(t).value, t);
    if !run.failed {
      LoopUnfold(PyNewsExec, PyNewsWeight, [SelectNews, NewsStep], 1, f, t);
      assert [SelectNews, NewsStep] + [] == [SelectNews, NewsStep];
    }
  }

  /** Without categories the dialog asks for them, adds the news step and suspends. */
  lemma PyNewsAsks(f: PyNewsFields, t: PyNewsTurn)
    requires PyCategories(t) == Some([])
    ensures Terminating(PyNewsExec, PyNewsWeight)
    ensures ProceedSpec(PyNewsExec, PyNewsWeight, [SelectNews], PyKeepFields, DialogState([SelectNews], 0, f), t)
            == (Finished(WaitForInput), DialogState([SelectNews, NewsStep], 1, PyNewsFields(f.replies + [PyQuestion])))
  {
    PyNewsTerminates();
    assert [SelectNews] + [NewsStep] == [SelectNews, NewsStep];
  }

  /** A follow-up without categories ends the dialog with NEXT and an apology. */
  lemma PyNewsFollowUpWithoutCategory(f: PyNewsFields, t: PyNewsTurn)
    requires PyCategories(t) == Some([])
    ensures Terminating(PyNewsExec, PyNewsWeight)
    ensures ProceedSpec(PyNewsExec, PyNewsWeight, [SelectNews], PyKeepFields, DialogState([SelectNews, NewsStep], 1, f), t)
            == (Finished(Next), DialogState([SelectNews], 0, PyNewsFields(f.replies + [PyNoCategory])))
  {
    PyNewsTerminates();
    LoopUnfold(PyNewsExec, PyNewsWeight, [SelectNews, NewsStep], 1, f, t);
    assert [SelectNews, NewsStep] + [] == [SelectNews, NewsStep];
  }

  /** Without entities either step raises, and the dialog stays where it was. */
  lemma PyNewsWithoutEntities(f: PyNewsFields, t: PyNewsTurn)
    requires t.entities.None?
    ensures Terminating(PyNewsExec, PyNewsWeight)
    ensures ProceedSpec(PyNewsExec, PyNewsWeight, [SelectNews], PyKeepFields, DialogState([SelectNews], 0, f), t)
            == (Failed, DialogState([SelectNews], 0, f))
    ensures ProceedSpec(PyNewsExec, PyNewsWeight, [SelectNews], PyKeepFields, DialogState([SelectNews, NewsStep], 1, f), t)
            == (Failed, DialogState([SelectNews, NewsStep], 1, f))
  {
    PyNewsTerminates();
    assert [SelectNews] + [] == [SelectNews];
    assert [SelectNews, NewsStep] + [] == [SelectNews, NewsStep];
  }

  // ---------------------------------------------------------------------------
  // cognitive/dialogmanagement/dialog/News.kt

  /** The categories and their providers (News.kt:23-27), in the map's order. */
  const KtCategoryNames: seq<string> := ["General", "Sport", "IT"]

  const KtProviders: map<string, seq<Provider>> := map[
    "General" := [Provider("Tagesschau", "https://www.tagesschau.de/xml/rss2/")],
    "Sport" := [Provider("Sportschau", "https://www.sportschau.de/index~rss2.xml")],
    "IT" := [Provider("heise online", "https://www.heise.de/rss/heise-top-atom.xml")]
  ]

  /** An RSS item: its title, link, guid and publication time, any of which the feed may omit. */
  datatype KtItem = KtItem(title: Option<string>, link: Option<string>, guid: Option<string>, pubDate: Option<int>)

  /** The "news" entities, what reading each feed URL gives (None when the reader throws), and
      the clock in seconds since the epoch. */
  datatype KtNewsTurn = KtNewsTurn(entities: seq<Entity>, feeds: string -> Option<seq<KtItem>>, now: int)

  function PubDateOr0(i: KtItem): int {
    match i.pubDate
    case Some(p) => p
    case None => 0
  }

  /** The two filters of News.kt:56-57: dated, and not older than a day. */
  predicate InWindow(i: KtItem, now: int) {
    i.pubDate.Some? && i.pubDate.value >= now - Day
  }

  function KtRecent(items: seq<KtItem>, now: int): (r: seq<KtItem>)
    ensures forall x :: x in r <==> x in items && InWindow(x, now)
  {
    if items == [] then []
    else (if InWindow(items[0], now) then [items[0]] else []) + KtRecent(items[1..], now)
  }

  /** readFeed (News.kt:50-64): the items of the last day, newest first, at most MaxNews; a
      reader error gives no items. */
  function ReadFeed(read: Option<seq<KtItem>>, now: int): seq<KtItem> {
    match read
    case None => []
    case Some(items) => Take(SortDesc(KtRecent(items, now), PubDateOr0), MaxNews)
  }

  lemma ReadFeedNewestOfTheDay(read: Option<seq<KtItem>>, now: int)
    ensures read.None? ==> ReadFeed(read, now) == []
    ensures read.Some? ==>
              var h := ReadFeed(read, now);
              && |h| == Min(|KtRecent(read.value, now)|, MaxNews)
              && (forall x :: x in h ==> x in read.value && InWindow(x, now))
              && (forall i, j :: 0 <= i < j < |h| ==> PubDateOr0(h[i]) >= PubDateOr0(h[j]))
              && (forall e, x :: e in read.value && InWindow(e, now) && e !in h && x in h ==> PubDateOr0(e) <= PubDateOr0(x))
  {
    if read.Some? {
      TopByKey(KtRecent(read.value, now), PubDateOr0, MaxNews);
    }
  }

  /** A listed item can be shown: it has a title, and a guid, which `orElse` evaluates even
      when the item has a link (News.kt:38). */
  predicate Showable(i: KtItem) {
    i.title.Some? && i.guid.Some?
  }

  predicate AllShowable(items: seq<KtItem>) {
    forall k :: 0 <= k < |items| ==> Showable(items[k])
  }

  /** The line of one item: its title, linked to its link, or its guid without one. */
  function KtLine(i: KtItem): string
    requires Showable(i)
  {
    "* [" + i.title.value + "](" + (if i.link.Some? then i.link.value else i.guid.value) + ")\n"
  }

  /** The embed's description. The `trim()` of News.kt:41 returns a trimmed copy that is not
      used, so the description keeps its last newline. */
  function KtDescription(items: seq<KtItem>): string
    requires AllShowable(items)
  {
    if items == [] then "" else KtDescription(items[..|items| - 1]) + KtLine(items[|items| - 1])
  }

  /** One news message: an embed titled with the provider's name. */
  datatype Embed = Embed(title: string, description: string)

  /** The messages built so far, and whether building them threw. */
  datatype KtNewsRun = KtNewsRun(embeds: seq<Embed>, failed: bool)

  function KtProvidersRun(ps: seq<Provider>, t: KtNewsTurn): (run: KtNewsRun)
    ensures |run.embeds| <= |ps|
  {
    if ps == [] then KtNewsRun([], false)
    else
      var prev := KtProvidersRun(ps[..|ps| - 1], t);
      var p := ps[|ps| - 1];
      var feed := ReadFeed(t.feeds(p.url), t.now);
      if prev.failed then prev
      else if !AllShowable(feed) then prev.(failed := true)
      else if feed == [] then prev
      else KtNewsRun(prev.embeds + [Embed(p.name, KtDescription(feed))], false)
  }

  /** createNewsMessage (News.kt:31-48): unknown category ids are skipped. */
  function KtCategoriesRun(cats: seq<string>, t: KtNewsTurn): KtNewsRun {
    if cats == [] then KtNewsRun([], false)
    else
      var prev := KtCategoriesRun(cats[..|cats| - 1], t);
      var c := cats[|cats| - 1];
      if prev.failed || c !in KtProviders then prev
      else
        var run := KtProvidersRun(KtProviders[c], t);
        KtNewsRun(prev.embeds + run.embeds, run.failed)
  }

  /** The message of a provider whose feed has news. */
  ghost predicate ProviderMessage(e: Embed, p: Provider, t: KtNewsTurn) {
    var feed := ReadFeed(t.feeds(p.url), t.now);
    feed != [] && AllShowable(feed) && e == Embed(p.name, KtDescription(feed))
  }

  /** The messages are exactly those of the listed providers whose feeds have news. */
  lemma {:induction false} KtProvidersRunExactly(ps: seq<Provider>, t: KtNewsTurn, e: Embed)
    requires !KtProvidersRun(ps, t).failed
    ensures e in KtProvidersRun(ps, t).embeds <==> exists p :: p in ps && ProviderMessage(e, p, t)
  {
    if ps != [] {
      var i := |ps| - 1;
      var p := ps[i];
      KtProvidersRunExactly(ps[..i], t, e);
      assert ps == ps[..i] + [p];
      if exists q :: q in ps && ProviderMessage(e, q, t) {
        var q :| q in ps && ProviderMessage(e, q, t);
        if q != p {
          assert q in ps[..i];
        } else {
          assert e in KtProvidersRun(ps, t).embeds;
        }
      }
      var feed := ReadFeed(t.feeds(p.url), t.now);
      if e in KtProvidersRun(ps[..i], t).embeds {
        var q :| q in ps[..i] && ProviderMessage(e, q, t);
        assert q in ps;
      } else if e in KtProvidersRun(ps, t).embeds {
        assert feed != [] && e == Embed(p.name, KtDescription(feed));
        assert ProviderMessage(e, p, t);
      }
    }
  }

  /** Without a throw, the messages are exactly those of the providers of the known categories
      named in the message whose feeds have news: unknown categories and empty feeds give none. */
  lemma {:induction false} KtCategoriesRunExactly(cats: seq<string>, t: KtNewsTurn, e: Embed)
    requires !KtCategoriesRun(cats, t).failed
    ensures e in KtCategoriesRun(cats, t).embeds <==>
            exists c, p :: c in cats && c in KtProviders && p in KtProviders[c] && ProviderMessage(e, p, t)
  {
    if cats != [] {
      var i := |cats| - 1;
      var c := cats[i];
      var prev := KtCategoriesRun(cats[..i], t);
      assert !prev.failed;
      KtCategoriesRunExactly(cats[..i], t, e);
      assert cats == cats[..i] + [c];
      if c in KtProviders {
        KtProvidersRunExactly(KtProviders[c], t, e);
      }
      if exists c', p :: c' in cats && c' in KtProviders && p in KtProviders[c'] && ProviderMessage(e, p, t) {
        var c', p :| c' in cats && c' in KtProviders && p in KtProviders[c'] && ProviderMessage(e, p, t);
        if c' != c {
          assert c' in cats[..i];
        }
      }
      if e in prev.embeds {
        var c', p :| c' in cats[..i] && c' in KtProviders && p in KtProviders[c'] && ProviderMessage(e, p, t);
        assert c' in cats;
      }
    }
  }

  lemma {:induction false} KtProvidersRunStops(ps: seq<Provider>, k: nat, t: KtNewsTurn)
    requires k <= |ps| && KtProvidersRun(ps[..k], t).failed
    ensures KtProvidersRun(ps, t) == KtProvidersRun(ps[..k], t)
    decreases |ps| - k
  {
    if k < |ps| {
      assert ps[..k + 1][..k] == ps[..k];
      KtProvidersRunStops(ps, k + 1, t);
    } else {
      assert ps[..k] == ps;
    }
  }

  /** One more category: unknown ones add nothing, known ones add their providers' run. */
  lemma KtCategoriesRunStep(cats: seq<string>, i: nat, t: KtNewsTurn)
    requires i < |cats| && !KtCategoriesRun(cats[..i], t).failed
    ensures cats[i] !in KtProviders ==> KtCategoriesRun(cats[..i + 1], t) == KtCategoriesRun(cats[..i], t)
    ensures cats[i] in KtProviders ==>
      var run := KtProvidersRun(KtProviders[cats[i]], t);
      KtCategoriesRun(cats[..i + 1], t) == KtNewsRun(KtCategoriesRun(cats[..i], t).embeds + run.embeds, run.failed)
  {
    assert cats[..i + 1][..i] == cats[..i];
  }

  lemma {:induction false} KtCategoriesRunStops(cats: seq<string>, k: nat, t: KtNewsTurn)
    requires k <= |cats| && KtCategoriesRun(cats[..k], t).failed
    ensures KtCategoriesRun(cats, t) == KtCategoriesRun(cats[..k], t)
    decreases |cats| - k
  {
    if k < |cats| {
      assert cats[..k + 1][..k] == cats[..k];
      KtCategoriesRunStops(cats, k + 1, t);
    } else {
      assert cats[..k] == cats;
    }
  }

  /** The description loop of News.kt:37-39; it throws at the first item it cannot show. */
  method Describe(feed: seq<KtItem>) returns (description: string, ok: bool)
    ensures ok <==> AllShowable(feed)
    ensures ok ==> description == KtDescription(feed)
  {
    description := "";
    var k := 0;
    while k < |feed|
      invariant 0 <= k <= |feed| && AllShowable(feed[..k])
      invariant description == KtDescription(feed[..k])
    {
      var news := feed[k];
      if !Showable(news) {
        return description, false;
      }
      assert feed[..k + 1][..k] == feed[..k];
      description := description + KtLine(news);
      k := k + 1;
    }
    assert feed[..k] == feed;
    ok := true;
  }

  /** The loops of createNewsMessage (News.kt:31-48); a throw in the inner loop ends both. */
  method CreateNewsMessage(cats: seq<string>, t: KtNewsTurn) returns (run: KtNewsRun)
    ensures run == KtCategoriesRun(cats, t)
  {
    var result: seq<Embed> := [];
    var i := 0;
    while i < |cats|
      invariant 0 <= i <= |cats|
      invariant KtCategoriesRun(cats[..i], t) == KtNewsRun(result, false)
    {
      var categoryIdentifier := cats[i];
      KtCategoriesRunStep(cats, i, t);
      if categoryIdentifier !in KtProviders {
        i := i + 1;
        continue;
      }
      var r := ProvidersMessages(KtProviders[categoryIdentifier], t);
      if r.failed {
        KtCategoriesRunStops(cats, i + 1, t);
        return KtNewsRun(result + r.embeds, true);
      }
      result := result + r.embeds;
      i := i + 1;
    }
    assert cats[..i] == cats;
    run := KtNewsRun(result, false);
  }

  /** The inner loop of createNewsMessage (News.kt:34-46), over the providers of one category. */
  method ProvidersMessages(ps: seq<Provider>, t: KtNewsTurn) returns (run: KtNewsRun)
    ensures run == KtProvidersRun(ps, t)
  {
    var embeds: seq<Embed> := [];
    var j := 0;
    while j < |ps|
      invariant 0 <= j <= |ps|
      invariant KtProvidersRun(ps[..j], t) == KtNewsRun(embeds, false)
    {
      var provider := ps[j];
      assert ps[..j + 1][..j] == ps[..j];
      var feed := ReadFeed(t.feeds(provider.url), t.now);
      var description, ok := Describe(feed);
      if !ok {
        KtProvidersRunStops(ps, j + 1, t);
        return KtNewsRun(embeds, true);
      }
      if |feed| != 0 {
        embeds := embeds + [Embed(provider.name, description)];
      }
      j := j + 1;
    }
    assert ps[..j] == ps;
    run := KtNewsRun(embeds, false);
  }

  datatype KtNewsStep = KtSelectNews | KtNewsStepTag

  /** The plain replies and the news messages the dialog sent, in order. */
  datatype KtNewsFields = KtNewsFields(replies: seq<string>, embeds: seq<Embed>)

  /** The replies in English, where translate only fills in the placeholder. */
  const KtQuestion: string := "Which categories are you interested in? " + Join(", ", KtCategoryNames)
  const KtNoCategory: string := "Unfortunately I did not recognize any category. End dialog for now ;)"
  const KtNoNews: string := "No new news"

  function KtKeepFields(f: KtNewsFields): KtNewsFields { f }

  /** selectNews and newsStep (News.kt:71-105). */
  function KtNewsExec(s: KtNewsStep, f: KtNewsFields, t: KtNewsTurn): StepOutcome<KtNewsStep, KtNewsFields> {
    match s
    case KtSelectNews =>
      if NewsCategories(t.entities) != [] then Returned(Some(Next), [KtNewsStepTag], f)
      else Returned(Some(WaitForInput), [KtNewsStepTag], f.(replies := f.replies + [KtQuestion]))
    case KtNewsStepTag =>
      var cats := NewsCategories(t.entities);
      if cats == [] then Returned(Some(Next), [], f.(replies := f.replies + [KtNoCategory]))
      else
        var run := KtCategoriesRun(cats, t);
        if run.failed then Raised([], f)
        else Returned(Some(Next), [], KtNewsFields(f.replies + (if run.embeds == [] then [KtNoNews] else []), f.embeds + run.embeds))
  }

  function KtNewsWeight(s: KtNewsStep): nat {
    if s == KtSelectNews then 2 else 1
  }

  lemma KtNewsTerminates()
    ensures Terminating(KtNewsExec, KtNewsWeight)
  {
  }

  /** With categories in the first message, newsStep runs in the same proceed and ends the
      dialog, sending the messages, or "No new news" when there are none; it never waits. */
  lemma KtNewsAtOnce(f: KtNewsFields, t: KtNewsTurn)
    requires NewsCategories(t.entities) != []
    ensures Terminating(KtNewsExec, KtNewsWeight)
    ensures var (r, after) := ProceedSpec(KtNewsExec, KtNewsWeight, [KtSelectNews], KtKeepFields,
                                          DialogState([KtSelectNews], 0, f), t);
            var run := KtCategoriesRun(NewsCategories(t.entities), t);
            && r != Finished(WaitForInput)
            && (r == Finished(Next) <==> !run.failed)
            && (!run.failed ==> after == DialogState([KtSelectNews], 0,
                  KtNewsFields(f.replies + (if run.embeds == [] then [KtNoNews] else []), f.embeds + run.embeds)))
  {
    KtNewsTerminates();
    LoopUnfold(KtNewsExec, KtNewsWeight, [KtSelectNews], 0, f, t);
    assert [KtSelectNews] + [KtNewsStepTag] == [KtSelectNews, KtNewsStepTag];
    var run := KtCategoriesRun(NewsCategories(t.entities), t);
    if !run.failed {
      LoopUnfold(KtNewsExec, KtNewsWeight, [KtSelectNews, KtNewsStepTag], 1, f, t);
      assert [KtSelectNews, KtNewsStepTag] + [] == [KtSelectNews, KtNewsStepTag];
    }
  }

  /** Without categories selectNews asks for them, adds newsStep and suspends. */
  lemma KtNewsAsks(f: KtNewsFields, t: KtNewsTurn)
    requires NewsCategories(t.entities) == []
    ensures Terminating(KtNewsExec, KtNewsWeight)
    ensures ProceedSpec(KtNewsExec, KtNewsWeight, [KtSelectNews], KtKeepFields, DialogState([KtSelectNews], 0, f), t)
            == (Finished(WaitForInput), DialogState([KtSelectNews, KtNewsStepTag], 1, f.(replies := f.replies + [KtQuestion])))
  {
    KtNewsTerminates();
    assert [KtSelectNews] + [KtNewsStepTag] == [KtSelectNews, KtNewsStepTag];
  }

  /** A follow-up without categories ends the dialog with NEXT and a reply. */
  lemma KtNewsFollowUpWithoutCategory(f: KtNewsFields, t: KtNewsTurn)
    requires NewsCategories(t.entities) == []
    ensures Terminating(KtNewsExec, KtNewsWeight)
    ensures ProceedSpec(KtNewsExec, KtNewsWeight, [KtSelectNews], KtKeepFields, DialogState([KtSelectNews, KtNewsStepTag], 1, f), t)
            == (Finished(Next), DialogState([KtSelectNews], 0, f.(replies := f.replies + [KtNoCategory])))
  {
    KtNewsTerminates();
    LoopUnfold(KtNewsExec, KtNewsWeight, [KtSelectNews, KtNewsStepTag], 1, f, t);
    assert [KtSelectNews, KtNewsStepTag] + [] == [KtSelectNews, KtNewsStepTag];
  }
}
