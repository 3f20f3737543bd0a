/** The body of the journal (`generar_bloques_por_categoria`): for each category in a
    fixed order, its headlines are clustered, grouped by label, the three largest groups
    selected, and each selected group summarized; a run log is written alongside.

    Two calls into code outside the bot are parameters: `cluster` stands for the
    embedding request followed by the density clustering, and returns one label per
    headline; `ask` stands for the chat-completion request, from a prompt to the reply
    text. */
module Blocks {
  import opened Text
  import opened Headlines
  import opened LabelGroups
  import opened Selection

  /** The categories in the order the journal prints them. */
  const Categories: seq<Category> := [Nacional, Internacional, Economia, Wtf]

  /** The line that opens each category's section. */
  const Separator: string := "━━━━━━━━━━━━━━━"

  /** The section title printed under the separator. */
  function SectionTitle(cat: Category): string {
    match cat
    case Nacional => "🇪🇸 Nacional"
    case Internacional => "🌍 Internacional"
    case Economia => "💰 Economía"
    case Wtf => "🫠 WTF"
  }

  /** The clustering returns one label per headline, as a density clustering does. */
  ghost predicate LabelsFit(cluster: seq<Headline> -> seq<int>) {
    forall hs :: |cluster(hs)| == |hs|
  }

  // ---------------------------------------------------------------------------
  // The summary of one group (`resumir_grupo`)

  /** The fixed instructions that open every summary prompt. */
  const PromptHeader: string := "Eres un redactor sarcástico para un canal de Telegram. Resume las siguientes noticias en menos de 4 líneas, combinando un tono serio con ironía. Elige un titular representativo y proporciona un solo enlace.\n\nFormato:\n📌 *Título elegido*\n📰 Resumen serio + comentario sarcástico\n🔗 Enlace\n\nNoticias:\n"

  /** The prompt line listing one headline with its link. */
  function PromptLine(h: Headline): string {
    "- " + h.title + " (" + h.link + ")\n"
  }

  /** The prompt lines of a group, in order. */
  function PromptLines(g: seq<Headline>): string {
    if g == [] then "" else PromptLines(g[..|g| - 1]) + PromptLine(g[|g| - 1])
  }

  function SummaryPrompt(g: seq<Headline>): string {
    PromptHeader + PromptLines(g)
  }

  /** The loop that extends the prompt with one line per headline of the group. */
  method BuildPrompt(grupo: seq<Headline>) returns (prompt: string)
    ensures prompt == SummaryPrompt(grupo)
  {
    prompt := PromptHeader;
    var k := 0;
    while k < |grupo|
      invariant 0 <= k <= |grupo|
      invariant prompt == PromptHeader + PromptLines(grupo[..k])
    {
      assert grupo[..k + 1][..k] == grupo[..k];
      prompt := prompt + PromptLine(grupo[k]);
      k := k + 1;
    }
    assert grupo[..k] == grupo;
  }

  lemma {:induction false} PromptLinesAppend(a: seq<Headline>, b: seq<Headline>)
    ensures PromptLines(a + b) == PromptLines(a) + PromptLines(b)
    decreases |b|
  {
    if b == [] {
      assert a + b == a;
    } else {
      var b' := b[..|b| - 1];
      PromptLinesAppend(a, b');
      assert (a + b)[..|a + b| - 1] == a + b';
    }
  }

  /** The prompt lists every headline of the group, in group order: after the header,
      the line of the `i`-th headline follows the lines of those before it. */
  lemma PromptListsGroup(g: seq<Headline>, i: nat)
    requires i < |g|
    ensures var off := |PromptLines(g[..i])|;
      off + |PromptLine(g[i])| <= |PromptLines(g)|
      && PromptLines(g)[off..off + |PromptLine(g[i])|] == PromptLine(g[i])
  {
    assert g == g[..i] + ([g[i]] + g[i + 1..]);
    PromptLinesAppend(g[..i], [g[i]] + g[i + 1..]);
    PromptLinesAppend([g[i]], g[i + 1..]);
    assert PromptLines([g[i]]) == PromptLine(g[i]) by {
      assert [g[i]][..0] == [];
    }
  }

  /** The text of the model's reply to `prompt`, stripped: it has no whitespace at
      either end. */
  function Reply(ask: string -> string, prompt: string): (r: string)
    ensures r == [] || (!IsSpace(r[0]) && !IsSpace(r[|r| - 1]))
  {
    Strip(ask(prompt))
  }

  /** A group's block (`resumir_grupo`): the reply to the group's prompt. */
  function Summary(g: seq<Headline>, ask: string -> string): (r: string)
    ensures r == [] || (!IsSpace(r[0]) && !IsSpace(r[|r| - 1]))
  {
    Reply(ask, SummaryPrompt(g))
  }

  // ---------------------------------------------------------------------------
  // One category

  /** The groups selected for a category's headlines. */
  function Selected(subs: seq<Headline>, cluster: seq<Headline> -> seq<int>): seq<seq<Headline>>
    requires LabelsFit(cluster)
  {
    TopK(Grouping(subs, cluster(subs)))
  }

  /** One block per selected group, in selection order. */
  function Summaries(gs: seq<seq<Headline>>, ask: string -> string): (r: seq<string>)
    ensures |r| == |gs|
  {
    if gs == [] then [] else Summaries(gs[..|gs| - 1], ask) + [Summary(gs[|gs| - 1], ask)]
  }

  /** The log text of one selected group: its size, then each title on its own "- " line. */
  function GroupLog(cat: Category, g: seq<Headline>): string {
    LogHeader(cat, |g|) + TitleList(g) + "\n\n"
  }

  /** The first line of a group's log text: the category in capitals and the group size. */
  function LogHeader(cat: Category, n: nat): string {
    "[" + Upper(CategoryKey(cat)) + "] Grupo de " + NatToString(n) + " titulares:\n"
  }

  /** The category key in capitals, as it opens each log entry. */
  lemma UpperCategoryKey(cat: Category)
    ensures Upper(CategoryKey(cat)) == match cat
      case Nacional => "NACIONAL"
      case Internacional => "INTERNACIONAL"
      case Economia => "ECONOMIA"
      case Wtf => "WTF"
  {
  }

  /** The group's titles, one "- " line each, joined by newlines. */
  function TitleList(g: seq<Headline>): string {
    Join(TitleLines(g), "\n")
  }

  /** One "- " line per headline of the group, in group order. */
  function TitleLines(g: seq<Headline>): (r: seq<string>)
    ensures |r| == |g|
  {
    seq(|g|, i requires 0 <= i < |g| => "- " + g[i].title)
  }

  /** The log texts of the selected groups, one after the other. */
  function GroupLogs(cat: Category, gs: seq<seq<Headline>>): string {
    if gs == [] then "" else GroupLogs(cat, gs[..|gs| - 1]) + GroupLog(cat, gs[|gs| - 1])
  }

  /** The blocks one category contributes. */
  function CategoryBlocks(hs: seq<Headline>, cat: Category, cluster: seq<Headline> -> seq<int>,
                          ask: string -> string): seq<string>
    requires LabelsFit(cluster)
  {
    var subs := OfCategory(hs, cat);
    if subs == [] then []
    else
      var sel := Selected(subs, cluster);
      (if sel != [] then [Separator, SectionTitle(cat)] else []) + Summaries(sel, ask)
  }

  /** The log text one category contributes. */
  function CategoryLog(hs: seq<Headline>, cat: Category, cluster: seq<Headline> -> seq<int>): string
    requires LabelsFit(cluster)
  {
    var subs := OfCategory(hs, cat);
    if subs == [] then "" else GroupLogs(cat, Selected(subs, cluster))
  }

  /** The blocks of the categories `cats`, category after category. */
  function AllBlocks(hs: seq<Headline>, cats: seq<Category>, cluster: seq<Headline> -> seq<int>,
                     ask: string -> string): seq<string>
    requires LabelsFit(cluster)
  {
    if cats == [] then []
    else AllBlocks(hs, cats[..|cats| - 1], cluster, ask) + CategoryBlocks(hs, cats[|cats| - 1], cluster, ask)
  }

  /** The log of the categories `cats`, category after category. */
  function AllLogs(hs: seq<Headline>, cats: seq<Category>, cluster: seq<Headline> -> seq<int>): string
    requires LabelsFit(cluster)
  {
    if cats == [] then ""
    else AllLogs(hs, cats[..|cats| - 1], cluster) + CategoryLog(hs, cats[|cats| - 1], cluster)
  }

  /** `generar_bloques_por_categoria`: the body is the blocks of all categories joined
      by blank lines, and the log the log texts of all of them. */
  method BuildBlocks(titulares: seq<Headline>, cluster: seq<Headline> -> seq<int>, ask: string -> string)
    returns (cuerpo: string, logTexto: string)
    requires LabelsFit(cluster)
    ensures cuerpo == Join(AllBlocks(titulares, Categories, cluster, ask), "\n\n")
    ensures logTexto == AllLogs(titulares, Categories, cluster)
  {
    var bloques: seq<string> := [];
    logTexto := "";
    var i := 0;
    while i < |Categories|
      invariant 0 <= i <= |Categories|
      invariant bloques == AllBlocks(titulares, Categories[..i], cluster, ask)
      invariant logTexto == AllLogs(titulares, Categories[..i], cluster)
    {
      var cat := Categories[i];
      AllSnoc(titulares, Categories, i, cluster, ask);
      bloques, logTexto := CategoryStep(titulares, cat, cluster, ask, bloques, logTexto);
      i := i + 1;
    }
    assert Categories[..i] == Categories;
    cuerpo := Join(bloques, "\n\n");
  }

  /** One turn of the loop over the categories: a category without headlines is skipped;
      otherwise its headlines are clustered, grouped and the largest groups summarized. */
  method CategoryStep(titulares: seq<Headline>, cat: Category, cluster: seq<Headline> -> seq<int>,
                      ask: string -> string, bloques0: seq<string>, log0: string)
    returns (bloques: seq<string>, logTexto: string)
    requires LabelsFit(cluster)
    ensures bloques == bloques0 + CategoryBlocks(titulares, cat, cluster, ask)
    ensures logTexto == log0 + CategoryLog(titulares, cat, cluster)
  {
    bloques, logTexto := bloques0, log0;
    var subtitulares := OfCategory(titulares, cat);
    if subtitulares == [] {
      CategoryEmpty(titulares, cat, cluster, ask);
      return;
    }
    var labels := cluster(subtitulares);
    var grupos := GroupByLabel(subtitulares, labels);
    var ordenados := TopK(grupos);
    ghost var cabecera: seq<string> := if ordenados != [] then [Separator, SectionTitle(cat)] else [];
    if ordenados != [] {
      bloques := bloques + [Separator, SectionTitle(cat)];
    }
    assert bloques == bloques0 + cabecera;
    bloques, logTexto := SummarizeGroups(cat, ordenados, ask, bloques, logTexto);
    CategoryUnfold(titulares, cat, cluster, ask);
    ConcatAssoc(bloques0, cabecera, Summaries(ordenados, ask));
  }

  /** The loop over the selected groups: each group's summary is appended to the blocks
      and its log text to the log. */
  method SummarizeGroups(cat: Category, ordenados: seq<seq<Headline>>, ask: string -> string,
                         bloques0: seq<string>, log0: string)
    returns (bloques: seq<string>, logTexto: string)
    ensures bloques == bloques0 + Summaries(ordenados, ask)
    ensures logTexto == log0 + GroupLogs(cat, ordenados)
  {
    bloques, logTexto := bloques0, log0;
    var j := 0;
    while j < |ordenados|
      invariant 0 <= j <= |ordenados|
      invariant bloques == bloques0 + Summaries(ordenados[..j], ask)
      invariant logTexto == log0 + GroupLogs(cat, ordenados[..j])
    {
      SummariesSnoc(ordenados, j, ask);
      GroupLogsSnoc(cat, ordenados, j);
      var prompt := BuildPrompt(ordenados[j]);
      var resumen := Reply(ask, prompt);
      var linea := GroupLog(cat, ordenados[j]);
      ConcatAssoc(bloques0, Summaries(ordenados[..j], ask), [resumen]);
      ConcatAssoc(log0, GroupLogs(cat, ordenados[..j]), linea);
      bloques := bloques + [resumen];
      logTexto := logTexto + linea;
      j := j + 1;
    }
    assert ordenados[..j] == ordenados;
  }

  lemma AllSnoc(hs: seq<Headline>, cats: seq<Category>, i: nat, cluster: seq<Headline> -> seq<int>, ask: string -> string)
    requires LabelsFit(cluster) && i < |cats|
    ensures AllBlocks(hs, cats[..i + 1], cluster, ask) == AllBlocks(hs, cats[..i], cluster, ask) + CategoryBlocks(hs, cats[i], cluster, ask)
    ensures AllLogs(hs, cats[..i + 1], cluster) == AllLogs(hs, cats[..i], cluster) + CategoryLog(hs, cats[i], cluster)
  {
    assert cats[..i + 1][..i] == cats[..i];
  }

  lemma SummariesSnoc(gs: seq<seq<Headline>>, j: nat, ask: string -> string)
    requires j < |gs|
    ensures Summaries(gs[..j + 1], ask) == Summaries(gs[..j], ask) + [Summary(gs[j], ask)]
  {
    assert gs[..j + 1][..j] == gs[..j];
  }

  lemma GroupLogsSnoc(cat: Category, gs: seq<seq<Headline>>, j: nat)
    requires j < |gs|
    ensures GroupLogs(cat, gs[..j + 1]) == GroupLogs(cat, gs[..j]) + GroupLog(cat, gs[j])
  {
    assert gs[..j + 1][..j] == gs[..j];
  }

  /** What a category with headlines contributes, spelled out. */
  lemma CategoryUnfold(hs: seq<Headline>, cat: Category, cluster: seq<Headline> -> seq<int>, ask: string -> string)
    requires LabelsFit(cluster) && OfCategory(hs, cat) != []
    ensures var sel := TopK(Grouping(OfCategory(hs, cat), cluster(OfCategory(hs, cat))));
      CategoryBlocks(hs, cat, cluster, ask) == (if sel != [] then [Separator, SectionTitle(cat)] else []) + Summaries(sel, ask)
      && CategoryLog(hs, cat, cluster) == GroupLogs(cat, sel)
  {
  }

  // ---------------------------------------------------------------------------
  // Properties

  /** A category without headlines contributes nothing: neither header, blocks nor log. */
  lemma CategoryEmpty(hs: seq<Headline>, cat: Category, cluster: seq<Headline> -> seq<int>, ask: string -> string)
    requires LabelsFit(cluster) && OfCategory(hs, cat) == []
    ensures CategoryBlocks(hs, cat, cluster, ask) == [] && CategoryLog(hs, cat, cluster) == ""
  {
  }

  /** A category with headlines contributes the separator, its section title and one
      block per selected group, in selection order: between three and five blocks. */
  lemma CategoryShape(hs: seq<Headline>, cat: Category, cluster: seq<Headline> -> seq<int>, ask: string -> string)
    requires LabelsFit(cluster) && OfCategory(hs, cat) != []
    ensures 1 <= |Selected(OfCategory(hs, cat), cluster)| <= 3
    ensures |CategoryBlocks(hs, cat, cluster, ask)| == 2 + |Selected(OfCategory(hs, cat), cluster)|
    ensures CategoryBlocks(hs, cat, cluster, ask)[0] == Separator
    ensures CategoryBlocks(hs, cat, cluster, ask)[1] == SectionTitle(cat)
    ensures forall k :: 0 <= k < |Selected(OfCategory(hs, cat), cluster)| ==>
      CategoryBlocks(hs, cat, cluster, ask)[2 + k] == Summary(Selected(OfCategory(hs, cat), cluster)[k], ask)
  {
    var subs := OfCategory(hs, cat);
    var groups := Grouping(subs, cluster(subs));
    GroupingNonEmpty(subs, cluster(subs));
    var sel := Selected(subs, cluster);
    assert |TopK(groups)| >= 1;
    assert sel != [];
    CategoryUnfold(hs, cat, cluster, ask);
    SummariesAt(sel, ask);
    var b, r := CategoryBlocks(hs, cat, cluster, ask), Summaries(sel, ask);
    assert b == [Separator, SectionTitle(cat)] + r;
    assert b[2..] == r;
    forall k | 0 <= k < |sel| ensures b[2 + k] == Summary(sel[k], ask) {
      assert b[2 + k] == b[2..][k];
    }
  }

  lemma {:induction false} SummariesAt(gs: seq<seq<Headline>>, ask: string -> string)
    ensures forall k :: 0 <= k < |gs| ==> Summaries(gs, ask)[k] == Summary(gs[k], ask)
    decreases |gs|
  {
    if gs != [] {
      var n := |gs| - 1;
      SummariesAt(gs[..n], ask);
      var r, r0 := Summaries(gs, ask), Summaries(gs[..n], ask);
      assert r == r0 + [Summary(gs[n], ask)];
      forall k | 0 <= k < |gs| ensures r[k] == Summary(gs[k], ask) {
        if k < n {
          assert r[k] == r0[k] && gs[..n][k] == gs[k];
        }
      }
    }
  }

  /** Only headlines of the category are summarized for it: every headline of every group
      selected for `cat` is one of the input headlines, of category `cat`. */
  lemma SelectedFromCategory(hs: seq<Headline>, cat: Category, cluster: seq<Headline> -> seq<int>)
    requires LabelsFit(cluster)
    ensures forall g, h :: g in Selected(OfCategory(hs, cat), cluster) && h in g ==> h in hs && h.category == cat
  {
    var subs := OfCategory(hs, cat);
    var groups := Grouping(subs, cluster(subs));
    OfCategoryMembers(hs, cat);
    GroupsFromItems(subs, cluster(subs));
    TopKFromInput(groups);
  }

  lemma CategoryCases(hs: seq<Headline>, cat: Category, cluster: seq<Headline> -> seq<int>, ask: string -> string)
    requires LabelsFit(cluster)
    ensures OfCategory(hs, cat) == [] <==> CategoryBlocks(hs, cat, cluster, ask) == []
    ensures |CategoryBlocks(hs, cat, cluster, ask)| <= 5
    ensures CategoryBlocks(hs, cat, cluster, ask) != [] ==> CategoryBlocks(hs, cat, cluster, ask)[0] == Separator
  {
    if OfCategory(hs, cat) != [] {
      CategoryShape(hs, cat, cluster, ask);
    }
  }

  /** The block list starts with a separator whenever it is not empty. */
  lemma {:induction false} AllBlocksStart(hs: seq<Headline>, cats: seq<Category>,
                                         cluster: seq<Headline> -> seq<int>, ask: string -> string)
    requires LabelsFit(cluster)
    ensures AllBlocks(hs, cats, cluster, ask) != [] ==> AllBlocks(hs, cats, cluster, ask)[0] == Separator
    decreases |cats|
  {
    if cats != [] {
      var init := cats[..|cats| - 1];
      AllBlocksStart(hs, init, cluster, ask);
      CategoryCases(hs, cats[|cats| - 1], cluster, ask);
    }
  }

  /** The block list is empty exactly when none of the categories `cats` has a headline. */
  lemma {:induction false} AllBlocksEmpty(hs: seq<Headline>, cats: seq<Category>,
                                         cluster: seq<Headline> -> seq<int>, ask: string -> string)
    requires LabelsFit(cluster)
    ensures AllBlocks(hs, cats, cluster, ask) == [] <==> forall c :: c in cats ==> OfCategory(hs, c) == []
    decreases |cats|
  {
    if cats != [] {
      var init := cats[..|cats| - 1];
      var last := cats[|cats| - 1];
      AllBlocksEmpty(hs, init, cluster, ask);
      CategoryCases(hs, last, cluster, ask);
      assert cats == init + [last];
    }
  }

  /** The body is empty exactly when there are no headlines at all; otherwise it starts
      with the first section's separator. */
  lemma BodyEmptyIffNoHeadlines(hs: seq<Headline>, cluster: seq<Headline> -> seq<int>, ask: string -> string)
    requires LabelsFit(cluster)
    ensures Join(AllBlocks(hs, Categories, cluster, ask), "\n\n") == "" <==> hs == []
  {
    var blocks := AllBlocks(hs, Categories, cluster, ask);
    AllBlocksEmpty(hs, Categories, cluster, ask);
    AllBlocksStart(hs, Categories, cluster, ask);
    if hs != [] {
      OfCategoryMembers(hs, hs[0].category);
      assert hs[0].category in Categories;
      assert blocks != [];
      JoinStartsWith(blocks, "\n\n");
    } else {
      forall c | c in Categories ensures OfCategory(hs, c) == [] {
      }
    }
  }

  /** A group's log text opens with the line giving its category and its size, and
      lists the title of each of its headlines on a "- " line of its own. */
  lemma GroupLogListsTitles(cat: Category, g: seq<Headline>, i: nat)
    requires i < |g|
    ensures var head := LogHeader(cat, |g|);
      |head| <= |GroupLog(cat, g)| && GroupLog(cat, g)[..|head|] == head
    ensures var off, line := |LogHeader(cat, |g|)| + JoinOffset(TitleLines(g), "\n", i), "- " + g[i].title;
      off + |line| <= |GroupLog(cat, g)| && GroupLog(cat, g)[off..off + |line|] == line
  {
    var head, lines := LogHeader(cat, |g|), TitleList(g);
    assert GroupLog(cat, g) == head + (lines + "\n\n");
    JoinContainsPart(TitleLines(g), "\n", i);
    var off := JoinOffset(TitleLines(g), "\n", i);
    assert TitleLines(g)[i] == "- " + g[i].title;
    SliceInMiddle(head, lines, "\n\n", off, |TitleLines(g)[i]|);
  }

  /** Each category adds at most five blocks, so the body has at most twenty. */
  lemma {:induction false} AllBlocksCount(hs: seq<Headline>, cats: seq<Category>,
                                         cluster: seq<Headline> -> seq<int>, ask: string -> string)
    requires LabelsFit(cluster)
    ensures |AllBlocks(hs, cats, cluster, ask)| <= 5 * |cats|
    decreases |cats|
  {
    if cats != [] {
      AllBlocksCount(hs, cats[..|cats| - 1], cluster, ask);
      CategoryCases(hs, cats[|cats| - 1], cluster, ask);
    }
  }
}
