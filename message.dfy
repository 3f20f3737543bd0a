/** The message the bot publishes (`crear_mensaje_final` and the lines around it in
    `publicar`): the time slot chosen from the hour, the slot's introduction, the body, a
    closing remark, and the bot's own cut of an over-long message (it allows 4000 characters). */
module Message {

  /** The three editions of the day. */
  datatype TimeSlot = Manana | Tarde | Noche

  /** The edition for an hour of the day: morning before noon, afternoon until eight in
      the evening, night after that. */
  function SlotOf(hour: nat): (s: TimeSlot)
    ensures s == Manana <==> hour < 12
    ensures s == Tarde <==> 12 <= hour < 20
    ensures s == Noche <==> 20 <= hour
  {
    if hour < 12 then Manana else if hour < 20 then Tarde else Noche
  }

  /** The opening paragraph of each edition, keyed by slot. */
  const Intros: map<TimeSlot, string> := map[
    Manana := "¡Buenos días! Aquí tienes la edición matinal del *Defecation Journal*, el diario que lees mientras haces lo que nadie más quiere hablar.",
    Tarde := "¡Hora de la pausa! Llega la edición vespertina del *Defecation Journal*, ideal para esos momentos donde el baño es tu sala de prensa privada.",
    Noche := "¡Bienvenidos a la edición nocturna del *Defecation Journal*! El resumen perfecto para cerrar el día mientras reflexionas... en el trono."
  ]

  /** The edition's opening paragraph (`intro[momento]`); every slot has one. */
  function Intro(s: TimeSlot): string {
    assert s == Manana || s == Tarde || s == Noche;
    Intros[s]
  }

  /** The closing remarks; the bot picks one at random, so the model takes its index. */
  const Closings: seq<string> := [
    "Recuerda: la vida es como el papel higiénico, a veces estás en el rollo... y otras te lo quitan.",
    "Gracias por leer donde más se piensa. ¡Hasta la próxima sentada!",
    "No olvides tirar de la cadena... y de este canal. 💩"
  ]

  /** The last paragraph of the message: the mask emoji and the closing remark. */
  function ClosingLine(cierre: nat): string
    requires cierre < |Closings|
  {
    "\n\n🎭 " + Closings[cierre]
  }

  /** `crear_mensaje_final`: introduction, blank line, body, blank line, closing remark. */
  function FinalMessage(cuerpo: string, s: TimeSlot, cierre: nat): string
    requires cierre < |Closings|
  {
    Intro(s) + "\n\n" + cuerpo + ClosingLine(cierre)
  }

  /** The body of a message built for slot `s` and closing `cierre`: what lies between the
      introduction and its blank line, and the closing paragraph. */
  function BodyOf(m: string, s: TimeSlot, cierre: nat): string
    requires cierre < |Closings|
    requires |Intro(s)| + 2 + |ClosingLine(cierre)| <= |m|
  {
    m[|Intro(s)| + 2..|m| - |ClosingLine(cierre)|]
  }

  /** The message is made of its three paragraphs, in order: it starts with the
      introduction and a blank line and ends with the closing paragraph, and the body sits
      unchanged between them. */
  lemma Paragraphs(intro: string, cuerpo: string, closing: string)
    ensures var m, n := intro + "\n\n" + cuerpo + closing, |intro|;
      |m| == n + 2 + |cuerpo| + |closing|
      && m[..n] == intro && m[n..n + 2] == "\n\n"
      && m[n + 2..n + 2 + |cuerpo|] == cuerpo
      && m[n + 2 + |cuerpo|..] == closing
  {
    var a := intro + "\n\n";
    var m := a + cuerpo + closing;
    assert m[..|intro|] == a[..|intro|];
    assert m[|intro|..|intro| + 2] == a[|intro|..];
    assert m[|a|..|a| + |cuerpo|] == cuerpo;
    assert m[|a| + |cuerpo|..] == closing;
  }

  /** The body can be read back out of the message: `BodyOf` undoes `FinalMessage`. */
  lemma BodyRoundTrip(cuerpo: string, s: TimeSlot, cierre: nat)
    requires cierre < |Closings|
    ensures |Intro(s)| + 2 + |ClosingLine(cierre)| <= |FinalMessage(cuerpo, s, cierre)|
    ensures BodyOf(FinalMessage(cuerpo, s, cierre), s, cierre) == cuerpo
  {
    Paragraphs(Intro(s), cuerpo, ClosingLine(cierre));
  }

  /** Different bodies give different messages for the same slot and closing. */
  lemma FinalMessageInjective(c1: string, c2: string, s: TimeSlot, cierre: nat)
    requires cierre < |Closings|
    requires FinalMessage(c1, s, cierre) == FinalMessage(c2, s, cierre)
    ensures c1 == c2
  {
    BodyRoundTrip(c1, s, cierre);
    BodyRoundTrip(c2, s, cierre);
  }

  /** The bot's own length limit for a message, and how much of a longer one it keeps. */
  const MaxLength: nat := 4000
  const KeptLength: nat := 3990

  /** The cut applied before sending: a message over the limit keeps its first
      characters and gets an ellipsis; any other message is sent as it is. */
  function Truncate(m: string): (r: string)
    ensures |r| <= MaxLength
    ensures r == m <==> |m| <= MaxLength
  {
    if |m| > MaxLength then m[..KeptLength] + "..." else m
  }

  /** A cut message is its first 3990 characters followed by "...": 3993 in all. */
  lemma TruncateCut(m: string)
    requires |m| > MaxLength
    ensures |Truncate(m)| == KeptLength + 3
    ensures Truncate(m)[..KeptLength] == m[..KeptLength] && Truncate(m)[KeptLength..] == "..."
  {
  }

  /** Cutting never loses the beginning of the message: the first 3990 characters (all of
      them, for a shorter message) are kept. */
  lemma TruncateKeepsPrefix(m: string)
    ensures var n := if |m| < KeptLength then |m| else KeptLength;
      n <= |Truncate(m)| && Truncate(m)[..n] == m[..n]
  {
  }

  /** A message that opens with `head` still opens with it after the cut, as far as the
      cut keeps. */
  lemma TruncateKeepsOpening(head: string, m: string)
    requires |head| <= |m| && m[..|head|] == head
    ensures var n := if |head| < KeptLength then |head| else KeptLength;
      n <= |Truncate(m)| && Truncate(m)[..n] == head[..n]
  {
    var n := if |head| < KeptLength then |head| else KeptLength;
    TruncateKeepsPrefix(m);
    assert m[..n] == head[..n];
    if |m| > MaxLength {
      assert Truncate(m)[..n] == m[..KeptLength][..n];
    }
  }

  /** Cutting a second time changes nothing. */
  lemma TruncateIdempotent(m: string)
    ensures Truncate(Truncate(m)) == Truncate(m)
  {
  }
}
