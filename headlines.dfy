/** Headlines and their intake from the RSS feeds (`obtener_titulares`). Fetching a
    feed is I/O: it is the parameter `fetch`, from a feed URL to the entries the feed
    parser returned for it. */
module Headlines {
  import opened Text

  datatype Option<T> = None | Some(value: T)

  /** The four sections of the journal. */
  datatype Category = Nacional | Internacional | Economia | Wtf

  /** The key under which each category appears in the feed table. */
  function CategoryKey(c: Category): string {
    match c
    case Nacional => "nacional"
    case Internacional => "internacional"
    case Economia => "economia"
    case Wtf => "wtf"
  }

  /** One headline as the rest of the pipeline sees it. */
  datatype Headline = Headline(category: Category, title: string, link: string)

  /** One feed entry as the feed parser returns it: either field may be absent. */
  datatype RawEntry = RawEntry(title: Option<string>, link: Option<string>)

  /** An entry together with the category and feed it was read from. */
  datatype Tagged = Tagged(category: Category, url: string, entry: RawEntry)

  /** Reading `entrada.link` of a titled entry that has no link raises, and nothing
      catches it: the whole intake fails. */
  datatype IntakeError = MissingLink(category: Category, url: string)

  datatype Result<T> = Ok(value: T) | Err(error: IntakeError)

  /** The feed table, in the order the dictionary iterates it. */
  const RssFeeds: seq<(Category, seq<string>)> := [
    (Nacional, [
      "https://www.abc.es/rss/feeds/abc_Espana.xml",
      "https://www.elmundo.es/rss/espana.xml",
      "https://www.lavanguardia.com/mvc/feed/rss/politica.xml",
      "https://www.eldiario.es/rss/",
      "https://feeds.elpais.com/mrss-s/pages/ep/site/elpais.com/section/espana/portada",
      "https://rss.elconfidencial.com/espana/"]),
    (Internacional, [
      "https://feeds.elpais.com/mrss-s/pages/ep/site/elpais.com/section/internacional/portada",
      "https://www.eldiario.es/internacional/rss/",
      "https://www.europapress.es/rss/rss.aspx?ch=68",
      "https://www.lavanguardia.com/mvc/feed/rss/internacional.xml"]),
    (Economia, [
      "https://e00-expansion.uecdn.es/rss/economia.xml",
      "https://www.eleconomista.es/rss/rss-economia.php",
      "https://cincodias.elpais.com/seccion/economia/rss.xml"]),
    (Wtf, [
      "https://verne.elpais.com/rss/lo-mas.xml",
      "https://www.eldiario.es/caballodenietzsche/rss/",
      "https://www.publico.es/rss/agencias/cultura/",
      "https://nmas1.org/feed"])
  ]

  /** The entries of one feed, tagged with where they came from. */
  function Tag(cat: Category, url: string, es: seq<RawEntry>): seq<Tagged> {
    seq(|es|, i requires 0 <= i < |es| => Tagged(cat, url, es[i]))
  }

  /** All entries of the feeds `urls` of one category, feed after feed. */
  function FeedEntries(cat: Category, urls: seq<string>, fetch: string -> seq<RawEntry>): seq<Tagged> {
    if urls == [] then []
    else FeedEntries(cat, urls[..|urls| - 1], fetch) + Tag(cat, urls[|urls| - 1], fetch(urls[|urls| - 1]))
  }

  /** All entries of a feed table, category after category. */
  function TableEntries(table: seq<(Category, seq<string>)>, fetch: string -> seq<RawEntry>): seq<Tagged> {
    if table == [] then []
    else
      var (cat, urls) := table[|table| - 1];
      TableEntries(table[..|table| - 1], fetch) + FeedEntries(cat, urls, fetch)
  }

  /** The intake loop's effect on a stream of entries, one entry at a time: an entry
      without a title is skipped, a titled entry becomes a headline with its title
      stripped, and a titled entry without a link stops the intake. */
  function Admit(ts: seq<Tagged>): Result<seq<Headline>> {
    if ts == [] then Ok([]) else AdmitStep(Admit(ts[..|ts| - 1]), ts[|ts| - 1])
  }

  /** One turn of the innermost intake loop. */
  function AdmitStep(sofar: Result<seq<Headline>>, t: Tagged): Result<seq<Headline>> {
    match sofar
    case Err(e) => Err(e)
    case Ok(hs) =>
      if t.entry.title.None? then Ok(hs)
      else if t.entry.link.None? then Err(MissingLink(t.category, t.url))
      else Ok(hs + [Headline(t.category, Strip(t.entry.title.value), t.entry.link.value)])
  }

  lemma AdmitSnoc(ts: seq<Tagged>, t: Tagged)
    ensures Admit(ts + [t]) == AdmitStep(Admit(ts), t)
  {
    assert (ts + [t])[..|ts|] == ts;
  }

  /** Every titled entry has a link. */
  predicate LinksPresent(ts: seq<Tagged>) {
    forall i :: 0 <= i < |ts| && ts[i].entry.title.Some? ==> ts[i].entry.link.Some?
  }

  /** The headline a titled entry with a link becomes; nothing for any other entry. */
  function Keep(t: Tagged): seq<Headline> {
    if t.entry.title.Some? && t.entry.link.Some?
    then [Headline(t.category, Strip(t.entry.title.value), t.entry.link.value)]
    else []
  }

  /** The reference reading of the intake: the titled entries, in order. */
  function Titled(ts: seq<Tagged>): seq<Headline> {
    if ts == [] then [] else Keep(ts[0]) + Titled(ts[1..])
  }

  lemma {:induction false} TitledSnoc(ts: seq<Tagged>, t: Tagged)
    ensures Titled(ts + [t]) == Titled(ts) + Keep(t)
    decreases |ts|
  {
    if ts == [] {
      assert [t][1..] == [];
    } else {
      assert (ts + [t])[0] == ts[0];
      assert (ts + [t])[1..] == ts[1..] + [t];
      TitledSnoc(ts[1..], t);
    }
  }

  /** The intake fails exactly when some titled entry has no link, and otherwise keeps
      the titled entries in feed and entry order, with stripped titles. */
  lemma {:induction false} AdmitIsTitled(ts: seq<Tagged>)
    ensures Admit(ts).Ok? <==> LinksPresent(ts)
    ensures Admit(ts).Ok? ==> Admit(ts).value == Titled(ts)
    decreases |ts|
  {
    if ts != [] {
      var init, t := ts[..|ts| - 1], ts[|ts| - 1];
      assert ts == init + [t];
      AdmitIsTitled(init);
      assert LinksPresent(ts) ==> LinksPresent(init) by {
        assert forall i :: 0 <= i < |init| ==> init[i] == ts[i];
      }
      TitledSnoc(init, t);
    }
  }

  /** Every admitted headline has a title without surrounding whitespace. */
  lemma {:induction false} AdmittedTitlesStripped(ts: seq<Tagged>)
    requires Admit(ts).Ok?
    ensures forall h :: h in Admit(ts).value ==> Strip(h.title) == h.title
    decreases |ts|
  {
    if ts != [] {
      var init, t := ts[..|ts| - 1], ts[|ts| - 1];
      assert Admit(ts) == AdmitStep(Admit(init), t);
      assert Admit(init).Ok?;
      AdmittedTitlesStripped(init);
      if t.entry.title.Some? && t.entry.link.Some? {
        StripIdempotent(t.entry.title.value);
        assert Admit(ts).value == Admit(init).value + [Headline(t.category, Strip(t.entry.title.value), t.entry.link.value)];
      }
    }
  }

  /** The headlines of one category, in order (`[t for t in titulares if t['categoria'] == cat]`). */
  function OfCategory(hs: seq<Headline>, cat: Category): seq<Headline> {
    if hs == [] then []
    else (if hs[0].category == cat then [hs[0]] else []) + OfCategory(hs[1..], cat)
  }

  /** The headlines of `cat` are those of the input whose category is `cat`. */
  lemma {:induction false} OfCategoryMembers(hs: seq<Headline>, cat: Category)
    ensures |OfCategory(hs, cat)| <= |hs|
    ensures forall h :: h in OfCategory(hs, cat) <==> h in hs && h.category == cat
    decreases |hs|
  {
    if hs != [] {
      OfCategoryMembers(hs[1..], cat);
      assert hs == [hs[0]] + hs[1..];
    }
  }

  /** The entries read for category `cat`, in order. */
  function EntriesOf(ts: seq<Tagged>, cat: Category): seq<Tagged> {
    if ts == [] then [] else (if ts[0].category == cat then [ts[0]] else []) + EntriesOf(ts[1..], cat)
  }

  /** Within each category the intake keeps the order of its feeds and entries: the
      headlines of `cat` are exactly the titled entries read for `cat`. */
  lemma {:induction false} TitledOfCategory(ts: seq<Tagged>, cat: Category)
    ensures OfCategory(Titled(ts), cat) == Titled(EntriesOf(ts, cat))
    decreases |ts|
  {
    if ts != [] {
      var t := ts[0];
      TitledOfCategory(ts[1..], cat);
      OfCategoryAppend(Keep(t), Titled(ts[1..]), cat);
      if t.category == cat {
        var e := EntriesOf(ts, cat);
        assert e[0] == t && e[1..] == EntriesOf(ts[1..], cat);
        assert OfCategory(Keep(t), cat) == Keep(t);
      } else {
        assert EntriesOf(ts, cat) == EntriesOf(ts[1..], cat);
        assert OfCategory(Keep(t), cat) == [];
      }
    }
  }

  lemma {:induction false} OfCategoryAppend(a: seq<Headline>, b: seq<Headline>, cat: Category)
    ensures OfCategory(a + b, cat) == OfCategory(a, cat) + OfCategory(b, cat)
    decreases |a|
  {
    if a == [] {
      assert a + b == b;
    } else {
      assert (a + b)[0] == a[0];
      assert (a + b)[1..] == a[1..] + b;
      OfCategoryAppend(a[1..], b, cat);
    }
  }

  /** `obtener_titulares` (run on `RssFeeds`): for each category of the table, for each
      of its feeds, for each entry of the feed, keep the titled entries. The result is
      the intake of the whole stream of entries, in table, feed and entry order. */
  method ObtainHeadlines(table: seq<(Category, seq<string>)>, fetch: string -> seq<RawEntry>)
    returns (r: Result<seq<Headline>>)
    ensures r == Admit(TableEntries(table, fetch))
  {
    var entradas: seq<Headline> := [];
    var i := 0;
    while i < |table|
      invariant 0 <= i <= |table|
      invariant Admit(TableEntries(table[..i], fetch)) == Ok(entradas)
    {
      var (categoria, urls) := table[i];
      ghost var done := TableEntries(table[..i], fetch);
      var j := 0;
      assert done + FeedEntries(categoria, urls[..0], fetch) == done;
      while j < |urls|
        invariant 0 <= j <= |urls|
        invariant Admit(done + FeedEntries(categoria, urls[..j], fetch)) == Ok(entradas)
      {
        var url := urls[j];
        var feed := fetch(url);
        ghost var before := done + FeedEntries(categoria, urls[..j], fetch);
        var k := 0;
        assert before + Tag(categoria, url, feed[..0]) == before;
        while k < |feed|
          invariant 0 <= k <= |feed|
          invariant Admit(before + Tag(categoria, url, feed[..k])) == Ok(entradas)
        {
          var entrada := feed[k];
          TagSnoc(before, categoria, url, feed, k);
          if entrada.title.Some? {
            if entrada.link.None? {
              r := Err(MissingLink(categoria, url));
              FailureIsFinal(table, fetch, i, j, k);
              return;
            }
            entradas := entradas + [Headline(categoria, Strip(entrada.title.value), entrada.link.value)];
          }
          k := k + 1;
        }
        FeedDone(done, categoria, urls, j, fetch);
        j := j + 1;
      }
      TableRowDone(table, i, fetch);
      i := i + 1;
    }
    assert table[..|table|] == table;
    r := Ok(entradas);
  }

  lemma TagSnoc(before: seq<Tagged>, cat: Category, url: string, feed: seq<RawEntry>, k: nat)
    requires k < |feed|
    ensures Admit(before + Tag(cat, url, feed[..k + 1]))
      == AdmitStep(Admit(before + Tag(cat, url, feed[..k])), Tagged(cat, url, feed[k]))
  {
    assert before + Tag(cat, url, feed[..k + 1])
        == (before + Tag(cat, url, feed[..k])) + [Tagged(cat, url, feed[k])];
    AdmitSnoc(before + Tag(cat, url, feed[..k]), Tagged(cat, url, feed[k]));
  }

  lemma FeedDone(done: seq<Tagged>, cat: Category, urls: seq<string>, j: nat, fetch: string -> seq<RawEntry>)
    requires j < |urls|
    ensures done + FeedEntries(cat, urls[..j], fetch) + Tag(cat, urls[j], fetch(urls[j])[..|fetch(urls[j])|])
      == done + FeedEntries(cat, urls[..j + 1], fetch)
  {
    assert fetch(urls[j])[..|fetch(urls[j])|] == fetch(urls[j]);
    assert urls[..j + 1][..j] == urls[..j];
  }

  lemma TableRowDone(table: seq<(Category, seq<string>)>, i: nat, fetch: string -> seq<RawEntry>)
    requires i < |table|
    ensures TableEntries(table[..i], fetch) + FeedEntries(table[i].0, table[i].1[..|table[i].1|], fetch)
      == TableEntries(table[..i + 1], fetch)
  {
    assert table[i].1[..|table[i].1|] == table[i].1;
    assert table[..i + 1][..i] == table[..i];
  }

  /** A titled entry without a link ends the intake with that error. */
  lemma FailureIsFinal(table: seq<(Category, seq<string>)>, fetch: string -> seq<RawEntry>, i: nat, j: nat, k: nat)
    requires i < |table| && j < |table[i].1| && k < |fetch(table[i].1[j])|
    requires Admit(TableEntries(table[..i], fetch) + FeedEntries(table[i].0, table[i].1[..j], fetch)
      + Tag(table[i].0, table[i].1[j], fetch(table[i].1[j])[..k + 1])).Err?
    ensures Admit(TableEntries(table, fetch)) == Admit(TableEntries(table[..i], fetch)
      + FeedEntries(table[i].0, table[i].1[..j], fetch) + Tag(table[i].0, table[i].1[j], fetch(table[i].1[j])[..k + 1]))
  {
    var upTo := TableEntries(table[..i], fetch) + FeedEntries(table[i].0, table[i].1[..j], fetch)
      + Tag(table[i].0, table[i].1[j], fetch(table[i].1[j])[..k + 1]);
    var all := TableEntries(table, fetch);
    StreamPrefix(table, fetch, i, j, k);
    assert all == upTo + all[|upTo|..];
    AdmitErrPrefix(upTo, all[|upTo|..]);
  }

  /** Once the intake of a prefix of the stream has failed, the intake of the whole
      stream fails with the same error. */
  lemma {:induction false} AdmitErrPrefix(p: seq<Tagged>, rest: seq<Tagged>)
    requires Admit(p).Err?
    ensures Admit(p + rest) == Admit(p)
    decreases |rest|
  {
    if rest == [] {
      assert p + rest == p;
    } else {
      var init := rest[..|rest| - 1];
      AdmitErrPrefix(p, init);
      assert (p + rest)[..|p + rest| - 1] == p + init;
      assert Admit(p + init).Err?;
    }
  }

  lemma {:induction false} FeedEntriesGrow(cat: Category, urls: seq<string>, m: nat, fetch: string -> seq<RawEntry>)
    requires m <= |urls|
    ensures FeedEntries(cat, urls[..m], fetch) <= FeedEntries(cat, urls, fetch)
    decreases |urls| - m
  {
    if m < |urls| {
      FeedEntriesGrow(cat, urls, m + 1, fetch);
      assert urls[..m + 1][..m] == urls[..m];
    } else {
      assert urls[..m] == urls;
    }
  }

  lemma {:induction false} TableEntriesGrow(table: seq<(Category, seq<string>)>, m: nat, fetch: string -> seq<RawEntry>)
    requires m <= |table|
    ensures TableEntries(table[..m], fetch) <= TableEntries(table, fetch)
    decreases |table| - m
  {
    if m < |table| {
      TableEntriesGrow(table, m + 1, fetch);
      assert table[..m + 1][..m] == table[..m];
    } else {
      assert table[..m] == table;
    }
  }

  /** The entries read up to entry `k` of feed `j` of category `i` are a prefix of the
      whole stream. */
  lemma StreamPrefix(table: seq<(Category, seq<string>)>, fetch: string -> seq<RawEntry>, i: nat, j: nat, k: nat)
    requires i < |table| && j < |table[i].1| && k < |fetch(table[i].1[j])|
    ensures TableEntries(table[..i], fetch) + FeedEntries(table[i].0, table[i].1[..j], fetch)
      + Tag(table[i].0, table[i].1[j], fetch(table[i].1[j])[..k + 1]) <= TableEntries(table, fetch)
  {
    var (cat, urls) := table[i];
    var feed := fetch(urls[j]);
    var done := TableEntries(table[..i], fetch);
    assert Tag(cat, urls[j], feed[..k + 1]) <= Tag(cat, urls[j], feed);
    assert urls[..j + 1][..j] == urls[..j];
    FeedEntriesGrow(cat, urls, j + 1, fetch);
    assert FeedEntries(cat, urls[..j], fetch) + Tag(cat, urls[j], feed) <= FeedEntries(cat, urls, fetch);
    assert table[..i + 1][..i] == table[..i];
    TableEntriesGrow(table, i + 1, fetch);
    assert done + FeedEntries(cat, urls, fetch) <= TableEntries(table, fetch);
  }
}
