/** One run of the bot (`publicar`): the headlines are read from the feeds, the edition
    for the current hour is composed and cut to length, and the header picture, the
    message and the run log are handed over for sending and writing. */
module Journal {
  import opened Text
  import opened Headlines
  import opened Blocks
  import opened Message

  /** The header picture of each edition. */
  function HeaderPhoto(s: TimeSlot): string {
    match s
    case Manana => "https://i.imgur.com/tAJ6WfR.jpg"
    case Tarde => "https://i.imgur.com/XMEWksd.jpg"
    case Noche => "https://i.imgur.com/z3DcnUs.jpg"
  }

  /** Each slot has its own picture. */
  lemma HeaderPhotoDistinct(s: TimeSlot, t: TimeSlot)
    ensures HeaderPhoto(s) == HeaderPhoto(t) <==> s == t
  {
    if s != t {
      assert HeaderPhoto(s)[20] != HeaderPhoto(t)[20];
    }
  }

  /** What a run hands over: the picture to send, the message to send after it, and the
      text to write to the log file once the message is sent. */
  datatype Publication = Publication(photo: string, text: string, log: string)

  /** The body of the edition for headlines `hs`. */
  function Body(hs: seq<Headline>, cluster: seq<Headline> -> seq<int>, ask: string -> string): string
    requires LabelsFit(cluster)
  {
    Join(AllBlocks(hs, Categories, cluster, ask), "\n\n")
  }

  /** The publication for headlines `hs` at hour `hour`, closing with remark `cierre`:
      the slot's picture, the final message cut to length, and the run log. */
  function Edition(hs: seq<Headline>, hour: nat, cluster: seq<Headline> -> seq<int>,
                   ask: string -> string, cierre: nat): (p: Publication)
    requires LabelsFit(cluster) && cierre < |Closings|
    ensures |p.text| <= MaxLength
  {
    var slot := SlotOf(hour);
    Publication(HeaderPhoto(slot), Truncate(FinalMessage(Body(hs, cluster, ask), slot, cierre)),
                AllLogs(hs, Categories, cluster))
  }

  /** `publicar` up to the sending: a feed entry with a title but no link stops the run
      before anything is composed; otherwise the result is the edition of the headlines
      read. */
  method Publish(fetch: string -> seq<RawEntry>, hour: nat, cluster: seq<Headline> -> seq<int>,
                 ask: string -> string, cierre: nat)
    returns (r: Result<Publication>)
    requires LabelsFit(cluster) && cierre < |Closings|
    ensures r.Err? <==> Admit(TableEntries(RssFeeds, fetch)).Err?
    ensures r.Err? ==> r.error == Admit(TableEntries(RssFeeds, fetch)).error
    ensures r.Ok? ==> r.value == Edition(Admit(TableEntries(RssFeeds, fetch)).value, hour, cluster, ask, cierre)
  {
    var titulares := ObtainHeadlines(RssFeeds, fetch);
    if titulares.Err? {
      return Err(titulares.error);
    }
    var momento := SlotOf(hour);
    var cuerpo, logTexto := BuildBlocks(titulares.value, cluster, ask);
    var mensaje := FinalMessage(cuerpo, momento, cierre);
    var foto := HeaderPhoto(momento);
    if |mensaje| > MaxLength {
      mensaje := mensaje[..KeptLength] + "...";
    }
    r := Ok(Publication(foto, mensaje, logTexto));
  }

  /** The body is empty exactly when no headline was read; the message then holds only
      the introduction and the closing remark. */
  lemma NoNewsEdition(hs: seq<Headline>, hour: nat, cluster: seq<Headline> -> seq<int>,
                      ask: string -> string, cierre: nat)
    requires LabelsFit(cluster) && cierre < |Closings|
    ensures Body(hs, cluster, ask) == "" <==> hs == []
    ensures hs == [] ==> Edition(hs, hour, cluster, ask, cierre).text == Truncate(FinalMessage("", SlotOf(hour), cierre))
  {
    BodyEmptyIffNoHeadlines(hs, cluster, ask);
  }

  /** A message within the limit is sent whole, so its body can be read back from it. */
  lemma UncutEditionBody(hs: seq<Headline>, hour: nat, cluster: seq<Headline> -> seq<int>,
                         ask: string -> string, cierre: nat)
    requires LabelsFit(cluster) && cierre < |Closings|
    requires |FinalMessage(Body(hs, cluster, ask), SlotOf(hour), cierre)| <= MaxLength
    ensures var m := Edition(hs, hour, cluster, ask, cierre).text;
      |Intro(SlotOf(hour))| + 2 + |ClosingLine(cierre)| <= |m|
      && BodyOf(m, SlotOf(hour), cierre) == Body(hs, cluster, ask)
  {
    BodyRoundTrip(Body(hs, cluster, ask), SlotOf(hour), cierre);
  }

  /** Every edition, cut or not, opens with the introduction of the slot whose picture
      goes with it (as much of it as a cut message keeps). */
  lemma EditionOpensWithIntro(hs: seq<Headline>, hour: nat, cluster: seq<Headline> -> seq<int>,
                              ask: string -> string, cierre: nat)
    requires LabelsFit(cluster) && cierre < |Closings|
    ensures var p, s := Edition(hs, hour, cluster, ask, cierre), SlotOf(hour);
      var n := if |Intro(s)| < KeptLength then |Intro(s)| else KeptLength;
      p.photo == HeaderPhoto(s) && n <= |p.text| && p.text[..n] == Intro(s)[..n]
  {
    var s := SlotOf(hour);
    Paragraphs(Intro(s), Body(hs, cluster, ask), ClosingLine(cierre));
    TruncateKeepsOpening(Intro(s), FinalMessage(Body(hs, cluster, ask), s, cierre));
  }
}
