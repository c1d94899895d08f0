/**
 * The AssetsGenerator class of src/modules/assets_generator.py: it loads one
 * card's details, builds the script prompt, asks for the script and names the
 * narration file. The chat model's reply is a parameter.
 *
 * An attribute that __init__ never assigns (card_name, card_type) is None
 * here until it is first assigned; reading it before then raises
 * AttributeError. The other optional fields hold Python's None as None.
 */
module Assets {
  import opened Common
  import opened CardSearch

  /** The fixed instructions of the prompt, up to the card's name (the f-string's `{{`/`}}` are single braces). */
  const PromptIntro: string :=
    "Write me an engaging YouTube short script based on this YuGiOh card, explaining what it does. " +
    "Follow this formula exactly, do not add any extra text beyond what I specifically ask for, and " +
    "write at least three sentences: [Name] is a [Card Type] that {summarize the [Effect]} at the end " +
    "make a closing remark like 'subscribe for more videos like this'. Stay semi-neutral in nature, but " +
    "be engaging. Avoid being corny. Rules: Replace all numbers with their fully spelled-out form. " +
    "Example: {four} instead of {4}. If a card says {ATK} replace it with {attack} or {DEF} replace it " +
    "with {defense} Stick to the structure given without adding extra commentary. Card details: Name = "

  const TypeLabel: string := " Card Type = "
  const EffectLabel: string := " Effect = "

  /** The prompt built in load_card_details from the name, readable type and effect. */
  function Prompt(name: string, readableType: string, effect: string): string
  {
    PromptIntro + name + TypeLabel + readableType + EffectLabel + effect
  }

  /**
   * The prompt is the fixed instructions followed by the name, the readable
   * type and the effect, each in its labelled place, the effect last.
   */
  lemma PromptEmbedsDetails(name: string, readableType: string, effect: string)
    ensures var p := Prompt(name, readableType, effect);
            var n := |PromptIntro|;
            var t := n + |name| + |TypeLabel|;
            var e := t + |readableType| + |EffectLabel|;
            |p| == e + |effect| &&
            p[..n] == PromptIntro &&
            p[n..n + |name|] == name &&
            p[n + |name|..t] == TypeLabel &&
            p[t..t + |readableType|] == readableType &&
            p[t + |readableType|..e] == EffectLabel &&
            p[e..] == effect
  {
    SixPartSlices(PromptIntro, name, TypeLabel, readableType, EffectLabel, effect);
  }

  /** Each part of a six-part concatenation can be sliced back out of it. */
  lemma SixPartSlices(a: string, b: string, c: string, d: string, e: string, f: string)
    ensures var p := a + b + c + d + e + f;
            var n := |a|;
            var t := n + |b| + |c|;
            var x := t + |d| + |e|;
            |p| == x + |f| &&
            p[..n] == a &&
            p[n..n + |b|] == b &&
            p[n + |b|..t] == c &&
            p[t..t + |d|] == d &&
            p[t + |d|..x] == e &&
            p[x..] == f
  {
  }

  /** With the name and type fixed, the prompt determines the effect. */
  lemma PromptDeterminesEffect(name: string, readableType: string, e1: string, e2: string)
    requires Prompt(name, readableType, e1) == Prompt(name, readableType, e2)
    ensures e1 == e2
  {
    PromptEmbedsDetails(name, readableType, e1);
    PromptEmbedsDetails(name, readableType, e2);
  }

  /** f"{self.card_name}.mp3" for a name that is a string. */
  function AudioFileName(name: string): (file: string)
    ensures EndsWith(file, ".mp3") && |file| == |name| + 4 && file[..|name|] == name
  {
    name + ".mp3"
  }

  /** Different cards get different narration files. */
  lemma AudioFileNameInjective(a: string, b: string)
    requires AudioFileName(a) == AudioFileName(b)
    ensures a == b
  {
    assert a == AudioFileName(a)[..|a|];
  }

  class AssetsGenerator {
    var cardName: Option<string>          // None: never assigned
    var cardType: Option<string>          // None: never assigned
    var cardEffect: Option<string>
    var cardReadableType: Option<string>
    var prompt: Option<string>
    var script: Option<string>

    /** Once a card is loaded, its details and the prompt built from them are all present. */
    predicate Valid()
      reads this
    {
      cardName.Some? ==>
        cardType.Some? && cardEffect.Some? && cardReadableType.Some? &&
        prompt == Some(Prompt(cardName.value, cardReadableType.value, cardEffect.value))
    }

    /** __init__ before its call to load_card_details: every detail is unset. */
    constructor ()
      ensures cardName.None? && cardType.None? && cardEffect.None? && cardReadableType.None?
      ensures prompt.None? && script.None?
      ensures Valid()
    {
      cardName := None;
      cardType := None;
      cardEffect := None;
      cardReadableType := None;
      prompt := None;
      script := None;
    }

    /**
     * load_card_details(card_name) on the body fetched for that name, with
     * `answer` the reply to the fallback question and `bound` the length of
     * get_card's search loop: KeyCount(response) as written (Selected), the
     * result list's length as intended (SelectedCorrected). A declined
     * fallback returns without changing anything; the sentinel -1 is not
     * None and raises TypeError at its first subscript; a lookup error
     * propagates; a chosen record sets every detail and the prompt.
     */
    method LoadCardDetails(name: Option<string>, response: Response, answer: string, bound: nat)
        returns (err: Option<Exception>)
      modifies this
      ensures var sel := SelectedWithin(name, response, answer, bound);
              (sel == Declined ==> err.None?) &&
              (sel == NoResults ==> err == Some(TypeError)) &&
              (sel.Raised? ==> err == Some(sel.error)) &&
              (sel.Chosen? ==> err.None?)
      ensures !SelectedWithin(name, response, answer, bound).Chosen? ==>
                cardName == old(cardName) && cardType == old(cardType) && cardEffect == old(cardEffect) &&
                cardReadableType == old(cardReadableType) && prompt == old(prompt)
      ensures SelectedWithin(name, response, answer, bound).Chosen? ==>
                var card := SelectedWithin(name, response, answer, bound).card;
                cardName == Some(card.name) && cardReadableType == Some(card.humanReadableCardType) &&
                cardEffect == Some(card.desc) && cardType == Some(card.cardType) &&
                prompt == Some(Prompt(card.name, card.humanReadableCardType, card.desc))
      ensures script == old(script)
      ensures old(Valid()) ==> Valid()
    {
      var sel := GetCard(name, response, answer, bound);
      match sel
      case Declined =>
        return None;
      case NoResults =>
        return Some(TypeError);
      case Raised(e) =>
        return Some(e);
      case Chosen(card) =>
        cardName := Some(card.name);
        cardReadableType := Some(card.humanReadableCardType);
        cardEffect := Some(card.desc);
        cardType := Some(card.cardType);
        prompt := Some(Prompt(cardName.value, cardReadableType.value, cardEffect.value));
        return None;
    }

    /**
     * get_card_script with `completion` the chat model's reply. It reads
     * card_name first (AttributeError when never assigned), then refuses to
     * call the model while the effect, the readable type or the prompt is None.
     */
    method GetCardScript(completion: string) returns (err: Option<Exception>)
      modifies this
      ensures old(cardName).None? ==> err == Some(AttributeError)
      ensures old(cardName).Some? && (cardEffect.None? || cardReadableType.None? || prompt.None?) ==>
                err == Some(RuntimeFailure)
      ensures err.None? <==> old(cardName).Some? && cardEffect.Some? && cardReadableType.Some? && prompt.Some?
      ensures script == (if err.None? then Some(completion) else old(script))
      ensures cardName == old(cardName) && cardType == old(cardType) && cardEffect == old(cardEffect)
      ensures cardReadableType == old(cardReadableType) && prompt == old(prompt)
      ensures old(Valid()) && old(cardName).Some? ==> err.None?
    {
      if cardName.None? {
        return Some(AttributeError);
      }
      if cardEffect.None? || cardReadableType.None? || prompt.None? {
        return Some(RuntimeFailure);
      }
      script := Some(completion);
      return None;
    }

    /** text_to_speech's output file: f"{self.card_name}.mp3", or AttributeError when card_name was never assigned. */
    method TextToSpeech() returns (r: Result<string>)
      ensures cardName.None? <==> r == Failure(AttributeError)
      ensures cardName.Some? ==> r == Success(AudioFileName(cardName.value))
    {
      if cardName.None? {
        return Failure(AttributeError);
      }
      return Success(AudioFileName(cardName.value));
    }
  }

  /**
   * The module's driver: construct a generator for a card name and ask for
   * its script, with `bound` the length of get_card's search loop. A chosen
   * card gets its script; a declined fallback leaves card_name unassigned,
   * so get_card_script raises AttributeError; an error of the load ends the
   * run before the script is requested.
   */
  method LoadThenScript(name: Option<string>, response: Response, answer: string, bound: nat, completion: string)
      returns (loadError: Option<Exception>, scriptError: Option<Exception>)
    ensures var sel := SelectedWithin(name, response, answer, bound);
            (sel.Chosen? <==> loadError.None? && scriptError.None?) &&
            (sel == Declined ==> loadError.None? && scriptError == Some(AttributeError)) &&
            (sel == NoResults ==> loadError == Some(TypeError) && scriptError.None?) &&
            (sel.Raised? ==> loadError == Some(sel.error) && scriptError.None?)
  {
    var g := new AssetsGenerator();
    loadError := g.LoadCardDetails(name, response, answer, bound);
    scriptError := None;
    if loadError.None? {
      scriptError := g.GetCardScript(completion);
    }
  }
}
