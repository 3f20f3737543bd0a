# Defecation Journal bot, modelled in Dafny

The bot publishes a satirical news digest to a Telegram channel several times a day.
One run has these steps:

1. It reads the entries of a fixed table of RSS feeds, grouped into four categories (nacional, internacional, economia, wtf). It keeps the titled entries, with their titles stripped.
2. For each category in that fixed order, it asks an embedding service for one vector per title and clusters the vectors. It then groups the headlines by cluster label and keeps the three largest groups. Ties are broken by first appearance, because Python's sort is stable.
3. It has a chat model summarize each kept group from a fixed prompt that lists the group's headlines.
4. The summaries, each category's separator and its section title are joined by blank lines. A run log lists every kept group with its size and titles.
5. The body is wrapped in the introduction of the current edition (morning, afternoon or night, chosen from the hour) and a closing remark chosen at random.
6. The message is cut to 3990 characters plus "..." when it is longer than 4000 characters. It is sent after the edition's header picture, and the run log is then written to a file.

The model covers steps 1 to 6 up to the hand-over to Telegram and the file system. Each source module has one Dafny module:

- `Text` (text.dfy) holds the Python string built-ins the bot relies on: `strip`, `join`, `upper` and `str` of a count.
- `Headlines` (headlines.dfy) holds the feed table and the intake loop of `obtener_titulares`.
- `LabelGroups` (grouping.dfy) is the `defaultdict` grouping by label.
- `Selection` (selection.dfy) is the stable sort by descending size and the cut to three groups.
- `Blocks` (blocks.dfy) is `generar_bloques_por_categoria`, with `resumir_grupo`'s prompt loop.
- `Message` (message.dfy) holds the time slot, `crear_mensaje_final` and the truncation.
- `Journal` (journal.dfy) is `publicar` up to the sending.

The loops of the source are methods with loop invariants. Each is proved equal to a specification function:

- `Headlines.ObtainHeadlines` is proved equal to `Admit`;
- `LabelGroups.GroupByLabel` to `Grouping`;
- `Blocks.BuildPrompt` to `SummaryPrompt`;
- `Blocks.BuildBlocks` to `AllBlocks`/`AllLogs`.

The properties the source promises are then proved about those functions as lemmas. The expression-only parts are functions: the sort and its slice, the final message, the time slot and the cut.

Calls into code outside the bot are parameters of the model:

- `fetch: string -> seq<RawEntry>` is `feedparser.parse(url).entries`.
- `cluster: seq<Headline> -> seq<int>` is the embedding request followed by the density clustering. It returns one label per headline (`LabelsFit`).
- `ask: string -> string` is the chat-completion request, from the prompt to the reply text.
- `hour: nat` is `datetime.now().hour`.
- `cierre: nat` (below 3) is the index that `random.choice` picks among the closing remarks.

Where the code and the design description of the system disagree, the model follows the code:

- The design drops items whose title is empty after stripping. The code only checks that an entry has a `title` field, and keeps a title that strips to the empty string. So does `Headlines.Admit`.
- The design describes a cross-run history store, a duplicate filter and a line-based chunker with a 4096-character limit. None of these exists in `defecation_journal_bot.py`. The only length control there is the hard cut at 4000 characters (3990 kept plus "..."), which is what `Message.Truncate` models.
- The design has the feed collaborator always supply a link. The code reads `entrada.link` on every titled entry, and nothing catches the attribute error when it is missing. The whole intake then fails, and the run with it. The model makes this an explicit error, `Err(MissingLink(category, url))`.

## Model

| member | source | states |
|---|---|---|
| Text.Strip | defecation_journal_bot.py:63 | `str.strip()` never lengthens the string, and its result has no whitespace (Python's `isspace` set) at either end |
| Text.StripIsSlice | defecation_journal_bot.py:63 | the stripped string is a contiguous slice of the input, and every character outside that slice is whitespace |
| Text.StripIdempotent | defecation_journal_bot.py:63 | stripping twice equals stripping once |
| Text.StripTrimmed | defecation_journal_bot.py:63 | a string without whitespace at either end is left unchanged by `strip()` |
| Text.Join | defecation_journal_bot.py:129 | `sep.join(parts)`, recursive on the last part; its length, opening, splitting and the place of each part are `JoinLength`, `JoinStartsWith`, `JoinAppend` and `JoinContainsPart` |
| Text.JoinLength | defecation_journal_bot.py:129 | the joined string's length is the sum of the parts plus one separator between each neighbouring pair |
| Text.JoinStartsWith | defecation_journal_bot.py:129 | a non-empty join begins with its first part |
| Text.JoinAppend | defecation_journal_bot.py:129 | joining two non-empty lists equals joining each and putting one separator between them |
| Text.JoinContainsPart | defecation_journal_bot.py:129 | every part occurs in the joined string, whole, at its offset |
| Text.UpperHasNoLower | defecation_journal_bot.py:129 | after `upper()` no lower-case letter is left, and every character that was not one is unchanged |
| Text.UpperIdempotent | defecation_journal_bot.py:129 | upper-casing twice equals upper-casing once |
| Text.NatToString | defecation_journal_bot.py:129 | `str(len(grupo))` is never empty; its digits are characterised by `NatToStringDigits` and `ParseNatToString` |
| Text.NatToStringDigits | defecation_journal_bot.py:129 | `str(len(grupo))` is a non-empty run of decimal digits with no leading zero |
| Text.ParseNatToString | defecation_journal_bot.py:129 | the count written in the log reads back as the same number (`int(str(n)) == n`) |
| Headlines.ObtainHeadlines | defecation_journal_bot.py:54-66 | the nested loops over the feed table, the feeds and the entries return exactly the intake `Admit` of the stream of entries, in table, feed and entry order. The `MissingLink` error of a titled entry without a link is included. |
| Headlines.Admit | defecation_journal_bot.py:59-65 | the intake of a stream of entries, one entry at a time; `AdmitIsTitled` proves it fails exactly on a titled entry without a link and otherwise equals the reference `Titled` |
| Headlines.AdmitIsTitled | defecation_journal_bot.py:56-65 | the intake fails if and only if some titled entry lacks a link. When it succeeds, it yields the titled entries in order, as stripped headlines (the reference definition `Titled`). |
| Headlines.AdmittedTitlesStripped | defecation_journal_bot.py:63 | every admitted headline's title is unchanged by a further `strip()` |
| Headlines.TitledOfCategory | defecation_journal_bot.py:56-65 | within each category, the headlines are exactly the titled entries read for that category, in feed and entry order |
| Headlines.OfCategory | defecation_journal_bot.py:111 | the list comprehension filtering one category; `OfCategoryMembers` and `TitledOfCategory` prove what it keeps and in which order |
| Headlines.OfCategoryMembers | defecation_journal_bot.py:111 | the category filter keeps exactly the input headlines of that category, never more than the input |
| Headlines.TitledSnoc | defecation_journal_bot.py:59-65 | one more entry extends the reference intake by that entry's headline, if it has one |
| LabelGroups.GroupByLabel | defecation_journal_bot.py:117-119 | the loop that appends each headline to its label's list in a dictionary returns `Grouping`: one group per distinct label, in key order |
| LabelGroups.Distinct | defecation_journal_bot.py:117-119 | the dictionary's keys contain no duplicates and are exactly the labels used |
| LabelGroups.DistinctInFirstOccurrenceOrder | defecation_journal_bot.py:117-119 | the groups come in order of each label's first occurrence (dictionary insertion order) |
| LabelGroups.FirstIndex | defecation_journal_bot.py:117-119 | the first position of a label carries it, and no earlier position does |
| LabelGroups.GroupingPartitions | defecation_journal_bot.py:117-119 | the groups partition the input: together they hold each headline exactly as often as the input does, and their sizes sum to the input length |
| LabelGroups.ExactlyOneGroup | defecation_journal_bot.py:117-119 | every headline lies in the group of its own label, and exactly one group has that label |
| LabelGroups.GroupsNonEmpty | defecation_journal_bot.py:117-119 | no group is empty |
| LabelGroups.GroupsFromItems | defecation_journal_bot.py:117-119 | every member of a group is one of the input headlines |
| LabelGroups.MembersInInputOrder | defecation_journal_bot.py:117-119 | a group keeps its headlines in input order: its k-th member is the headline at the k-th position carrying the label |
| LabelGroups.PositionsOfLabel | defecation_journal_bot.py:117-119 | the positions of a label are increasing, all carry it, and include every position that carries it |
| LabelGroups.MembersHas | defecation_journal_bot.py:117-119 | the headline at any position belongs to the group of its label |
| LabelGroups.MembersFrom | defecation_journal_bot.py:117-119 | every member of a label's group is an input headline carrying that label |
| LabelGroups.MembersAbsent | defecation_journal_bot.py:117-119 | a label that does not occur has an empty group |
| LabelGroups.GroupingNonEmpty | defecation_journal_bot.py:117-119 | a non-empty input has at least one group |
| Selection.SortBySize | defecation_journal_bot.py:121 | the stable sort by descending size keeps the number of groups; `SortBySizeFacts` proves it ordered, a permutation and stable |
| Selection.SortBySizeFacts | defecation_journal_bot.py:121 | `sorted(groups, key=lambda g: -len(g))` is ordered by non-increasing size and is a permutation of the input. It is stable: the groups of each size keep their input order. |
| Selection.InsertPermutes | defecation_journal_bot.py:121 | inserting a group during the sort adds exactly that group |
| Selection.InsertSorted | defecation_journal_bot.py:121 | inserting into a list ordered by non-increasing size keeps it ordered |
| Selection.InsertOfSize | defecation_journal_bot.py:121 | insertion places a group before all groups of its own size, as the stable sort of the remaining input requires |
| Selection.TopKFacts | defecation_journal_bot.py:121 | `[:3]` of the sort is a prefix of the sorted list and ordered by non-increasing size. It is drawn from the input, no dropped group is larger than any kept one, and groups of equal size keep their input order. |
| Selection.TopK | defecation_journal_bot.py:121 | the selection has three groups, or all of them when there are fewer, and is a prefix of the sort |
| Selection.TopKFromInput | defecation_journal_bot.py:121 | every selected group is one of the input groups |
| Selection.CutFacts | defecation_journal_bot.py:121 | cutting a list ordered by size keeps an ordered part of it, and nothing cut off is larger than anything kept |
| Selection.OfSizePrefix | defecation_journal_bot.py:121 | a prefix keeps, for each size, a prefix of that size's groups |
| Selection.TopKExample | defecation_journal_bot.py:121 | with groups of sizes 5, 5, 2 and 1, the two of size 5 are kept in their order, then the one of size 2 |
| Blocks.BuildPrompt | defecation_journal_bot.py:81-91 | the prompt loop yields the fixed instructions followed by one `- title (link)` line per headline of the group |
| Blocks.PromptLinesAppend | defecation_journal_bot.py:90-91 | the prompt lines of two consecutive runs of headlines are the lines of each, one after the other |
| Blocks.PromptListsGroup | defecation_journal_bot.py:90-91 | the prompt lists every headline of the group in group order: each one's line follows the lines of those before it |
| Blocks.Reply | defecation_journal_bot.py:97 | a summary is the model's reply, stripped: it has no whitespace at either end |
| Blocks.Summary | defecation_journal_bot.py:97 | a group's block is the stripped reply to the group's prompt, so it has no whitespace at either end |
| Blocks.SummarizeGroups | defecation_journal_bot.py:126-130 | the loop over the selected groups appends each group's summary to the blocks and its log entry to the log, in selection order |
| Blocks.CategoryStep | defecation_journal_bot.py:110-130 | one category turn adds that category's blocks (`CategoryBlocks`) and log (`CategoryLog`) to what came before |
| Blocks.BuildBlocks | defecation_journal_bot.py:99-131 | `generar_bloques_por_categoria` returns the blocks of the four categories, visited in the fixed order and joined by `\n\n`, together with the log of all of them |
| Blocks.CategoryEmpty | defecation_journal_bot.py:111-113 | a category without headlines adds no header, no blocks and no log |
| Blocks.CategoryShape | defecation_journal_bot.py:123-128 | a category with headlines contributes the separator, then its section title, then one summary per selected group in selection order. That is between one and three groups, so two plus that many blocks. |
| Blocks.CategoryBlocks | defecation_journal_bot.py:111-128 | the blocks one category adds; `CategoryEmpty`, `CategoryShape` and `CategoryCases` prove that it is nothing for a category without headlines and otherwise the separator, the section title and one summary per selected group |
| Blocks.CategoryLog | defecation_journal_bot.py:111-129 | the log text one category adds; `CategoryEmpty` proves it empty for a category without headlines, and `GroupLogListsTitles` describes each group's entry |
| Blocks.SummariesAt | defecation_journal_bot.py:126-128 | the k-th summary block is the summary of the k-th selected group |
| Blocks.CategoryCases | defecation_journal_bot.py:110-128 | a category adds blocks if and only if it has headlines. It then adds at most five, starting with the separator. |
| Blocks.SelectedFromCategory | defecation_journal_bot.py:111-121 | only headlines of the current category are summarized for it: every member of every selected group is an input headline of that category |
| Blocks.AllBlocksStart | defecation_journal_bot.py:123-129 | a non-empty block list starts with a separator |
| Blocks.AllBlocksEmpty | defecation_journal_bot.py:110-129 | the block list is empty if and only if no visited category has a headline |
| Blocks.BodyEmptyIffNoHeadlines | defecation_journal_bot.py:129-131 | the body is the empty string if and only if there are no headlines at all |
| Blocks.AllBlocksCount | defecation_journal_bot.py:110-129 | each category adds at most five blocks |
| Blocks.GroupLog | defecation_journal_bot.py:129 | one group's log entry; `GroupLogListsTitles` proves its header line and the place of each title |
| Blocks.UpperCategoryKey | defecation_journal_bot.py:129 | the log entry's capitals are NACIONAL, INTERNACIONAL, ECONOMIA or WTF, one per category |
| Blocks.GroupLogListsTitles | defecation_journal_bot.py:129 | a group's log entry opens with the line giving its category in capitals and its size, and lists each of its titles on a "- " line of its own |
| Message.SlotOf | defecation_journal_bot.py:151 | the edition is "mañana" if and only if hour < 12, "tarde" if and only if 12 ≤ hour < 20, and "noche" if and only if hour ≥ 20 |
| Message.FinalMessage | defecation_journal_bot.py:133-144 | `crear_mensaje_final`: the slot's introduction, a blank line, the body, a blank line and the closing remark; `Paragraphs`, `BodyRoundTrip` and `FinalMessageInjective` prove its layout and that the body reads back out of it |
| Message.Paragraphs | defecation_journal_bot.py:144 | the final message splits back into the introduction, a blank line, the unchanged body and the closing paragraph, with matching lengths |
| Message.BodyRoundTrip | defecation_journal_bot.py:139-144 | the body can be read back out of the final message: `BodyOf` undoes `FinalMessage` for every slot and closing remark |
| Message.FinalMessageInjective | defecation_journal_bot.py:139-144 | different bodies give different messages for the same edition and closing |
| Message.Truncate | defecation_journal_bot.py:168-170 | the message sent is at most 4000 characters. It equals the message composed if and only if that message is at most 4000 characters. |
| Message.TruncateCut | defecation_journal_bot.py:168-170 | a message over 4000 characters becomes its first 3990 characters followed by "...", 3993 in all |
| Message.TruncateKeepsPrefix | defecation_journal_bot.py:168-170 | the cut keeps the first 3990 characters, or all of them for a shorter message |
| Message.TruncateKeepsOpening | defecation_journal_bot.py:168-170 | a message's opening survives the cut, as far as the cut keeps |
| Message.TruncateIdempotent | defecation_journal_bot.py:168-170 | cutting a second time changes nothing |
| Journal.HeaderPhoto | defecation_journal_bot.py:158-162 | the header picture of each slot; `HeaderPhotoDistinct` proves the three slots have different pictures |
| Journal.HeaderPhotoDistinct | defecation_journal_bot.py:158-162 | two slots share a header picture if and only if they are the same slot |
| Journal.Edition | defecation_journal_bot.py:147-170 | the text handed to Telegram is never longer than 4000 characters |
| Journal.Publish | defecation_journal_bot.py:147-170 | within the model, where `cluster` and `ask` always answer, `publicar` fails before composing anything exactly when the intake fails, with the intake's error. Otherwise it hands over the slot's header picture, the composed message cut to length, and the run log of the headlines read. |
| Journal.NoNewsEdition | defecation_journal_bot.py:155-157 | the body is empty if and only if no headline was read; the message is then just the introduction and the closing remark |
| Journal.UncutEditionBody | defecation_journal_bot.py:157-170 | a message within the limit is sent whole, so the body can be read back out of what is sent |
| Journal.EditionOpensWithIntro | defecation_journal_bot.py:151-170 | every edition opens with the introduction of the same slot as its header picture, as far as the cut keeps |

## Left out

- Embeddings and clustering (lines 68–78): the embedding request and DBSCAN over floating-point vectors are the parameter `cluster`. The model assumes only that it returns one label per headline. With `min_samples=1` every point is a core point, so there is no noise label to treat specially.
- The chat-completion request (lines 92–96): the parameter `ask`, from the prompt to the reply text. The model, temperature and message roles are not modelled.
- Feed fetching (line 58): the parameter `fetch`, which returns a feed's entries. An entry is modelled by whether it has a title and a link and by their values.
- Telegram: `send_photo` and `send_message` (lines 166 and 172), and the `try`/`except` around them (lines 165–179) that reports a failed send and ends the run. `Journal.Publish` returns what would be sent and written. Whether Telegram accepts it is not modelled, so a failed photo that prevents the message, or a failed message that prevents the log write, is outside the model.
- Failures of the embeddings request (line 70), of the chat request (line 92), and a reply without text, whose `.strip()` fails on `None` (line 97): in the source each of these raises out of `generar_bloques_por_categoria`, which is awaited outside the `try` (line 154), so the run ends with nothing sent or written. The parameters `cluster` and `ask` always answer, so this path is not in the model. `Journal.Publish` fails only on the intake's `MissingLink`.
- Writing `publicacion.log` (lines 174–175), the Colab download (lines 182–186), progress `print`s, `nest_asyncio` and `asyncio.run`: these are I/O and async plumbing.
- `datetime.now()` and `random.choice` become the parameters `hour` and `cierre`.
- The `Markdown` parse mode: message text is not checked for balanced Markdown entities, and the cut may split one.
- `Text.Upper`: only ASCII letters are upper-cased. That suffices for the four category keys, all ASCII.
- Lengths are counted in Unicode code points, as Python's `len` counts them. How Telegram counts length (UTF-16 code units) is not modelled.
- The helper methods `Blocks.SummarizeGroups` and `Blocks.CategoryStep` are the bodies of the two loops of `generar_bloques_por_categoria`, split out as methods of their own. Each is proved against the same specification functions as the whole.
