/**
 * get_card, the card-selection rule that YugiohVideoMaker and AssetsGenerator
 * share word for word. The fetched JSON body and the answer typed at the
 * prompt are parameters; the request URL is computed.
 */
module CardSearch {
  import opened Common

  /** One record of the card database's "data" list, with the fields the scripts read. */
  datatype Card = Card(
    name: string,
    humanReadableCardType: string,
    desc: string,
    cardType: string,
    imageUrls: seq<string>)  // the "image_url" of each entry of "card_images"

  /** A decoded JSON body: its optional "data" list and how many other top-level keys it has. */
  datatype Response = Response(data: Option<seq<Card>>, otherKeys: nat)

  /** len(response): the number of top-level keys of the JSON object. */
  function KeyCount(response: Response): nat
  {
    response.otherKeys + (if response.data.Some? then 1 else 0)
  }

  /** What get_card gives back. */
  datatype Selection =
    | NoResults               // the sentinel -1: the search returned an empty list
    | Chosen(card: Card)      // a record of the list
    | Declined                // None: no exact match, and the user did not accept the first result
    | Raised(error: Exception)

  const RandomCardUrl: string := "https://db.ygoprodeck.com/api/v7/randomcard.php"
  const CardInfoUrl: string := "https://db.ygoprodeck.com/api/v7/cardinfo.php?fname="

  /** The URL fetched: the random-card endpoint without a name, the fuzzy name search with one. */
  function RequestUrl(cardName: Option<string>): (url: string)
    ensures cardName.None? <==> url == RandomCardUrl
    ensures cardName.Some? ==> url == CardInfoUrl + cardName.value && url[|CardInfoUrl|..] == cardName.value
  {
    match cardName
    case None => RandomCardUrl
    case Some(name) =>
      var url := CardInfoUrl + name;
      assert url[33] != RandomCardUrl[33];
      url
  }

  /** data[i]["name"].upper() == card_name.upper() */
  predicate NameMatches(card: Card, query: string)
  {
    SameIgnoringCase(card.name, query)
  }

  /** No record in data[lo..hi] matches the query. */
  predicate NoMatchIn(data: seq<Card>, query: string, lo: nat, hi: nat)
    requires hi <= |data|
  {
    forall j :: lo <= j < hi ==> !NameMatches(data[j], query)
  }

  /** How `for i in range(bound)` ends from index i on. */
  datatype Scan =
    | Found(index: nat)  // returns data[index]
    | Exhausted          // the range ran out without a match
    | OutOfRange         // data[i] with i == len(data): IndexError

  /** The search loop from index i: the first match below the bound, or how the loop ends without one. */
  function ScanFrom(data: seq<Card>, query: string, bound: nat, i: nat): (r: Scan)
    ensures r.Found? ==> i <= r.index < bound && r.index < |data| && NameMatches(data[r.index], query)
    decreases bound - i
  {
    if i >= bound then Exhausted
    else if i >= |data| then OutOfRange
    else if NameMatches(data[i], query) then Found(i)
    else ScanFrom(data, query, bound, i + 1)
  }

  /**
   * The search from i finds the first match; it is exhausted exactly when the
   * bound stays within the list and nothing below it matches, and it runs off
   * the list exactly when the bound exceeds the list and nothing in the list matches.
   */
  lemma {:induction false} ScanFromCharacterized(data: seq<Card>, query: string, bound: nat, i: nat)
    requires i <= bound && i <= |data|
    ensures var r := ScanFrom(data, query, bound, i);
            r.Found? ==> r.index <= |data| && NoMatchIn(data, query, i, r.index)
    ensures ScanFrom(data, query, bound, i) == Exhausted <==>
            bound <= |data| && NoMatchIn(data, query, i, bound)
    ensures ScanFrom(data, query, bound, i) == OutOfRange <==>
            |data| < bound && NoMatchIn(data, query, i, |data|)
    decreases bound - i
  {
    if i < bound && i < |data| && !NameMatches(data[i], query) {
      ScanFromCharacterized(data, query, bound, i + 1);
      var r := ScanFrom(data, query, bound, i + 1);
      if r.Found? {
        assert NoMatchIn(data, query, i, r.index) by {
          forall j | i <= j < r.index ensures !NameMatches(data[j], query) {
            if j > i { assert i + 1 <= j < r.index; }
          }
        }
      }
      if bound <= |data| && NoMatchIn(data, query, i, bound) {
        assert NoMatchIn(data, query, i + 1, bound);
      }
      if |data| < bound && NoMatchIn(data, query, i, |data|) {
        assert NoMatchIn(data, query, i + 1, |data|);
      }
    }
  }

  /** The named branch once data has been read: the sentinel, the scan, then the question. */
  function NamedChoice(data: seq<Card>, query: string, bound: nat, answer: string): Selection
  {
    if |data| < 1 then NoResults
    else match ScanFrom(data, query, bound, 0)
      case Found(i) => Chosen(data[i])
      case OutOfRange => Raised(IndexError)
      case Exhausted => if answer == "y" then Chosen(data[0]) else Declined
  }

  /** get_card with its search loop running over range(bound). */
  function SelectedWithin(cardName: Option<string>, response: Response, answer: string, bound: nat): Selection
  {
    match response.data
    case None => Raised(KeyError)
    case Some(data) =>
      match cardName
      case None => if |data| == 0 then Raised(IndexError) else Chosen(data[0])
      case Some(query) => NamedChoice(data, query, bound, answer)
  }

  /**
   * get_card as written: the search loop runs over range(len(response)), the
   * number of top-level keys of the JSON body, not the length of its list.
   */
  function Selected(cardName: Option<string>, response: Response, answer: string): Selection
  {
    SelectedWithin(cardName, response, answer, KeyCount(response))
  }

  /** len(response["data"]), the bound the search loop evidently means (0 without a list, which raises first). */
  function SearchLength(response: Response): nat
  {
    if response.data.Some? then |response.data.value| else 0
  }

  /** get_card with the search loop over range(len(response["data"])), as evidently intended. */
  function SelectedCorrected(cardName: Option<string>, response: Response, answer: string): Selection
  {
    SelectedWithin(cardName, response, answer, SearchLength(response))
  }

  /**
   * get_card(card_name) on the body fetched from RequestUrl(card_name), with
   * `answer` the reply typed when no exact match is found and `bound` the
   * length of the search loop's range: KeyCount(response) as written,
   * SearchLength(response) as corrected.
   */
  method GetCard(cardName: Option<string>, response: Response, answer: string, bound: nat) returns (sel: Selection)
    ensures sel == SelectedWithin(cardName, response, answer, bound)
    ensures bound == KeyCount(response) ==> sel == Selected(cardName, response, answer)
    ensures bound == SearchLength(response) ==> sel == SelectedCorrected(cardName, response, answer)
  {
    if cardName.None? {
      if response.data.None? {
        return Raised(KeyError);
      }
      if |response.data.value| == 0 {
        return Raised(IndexError);
      }
      return Chosen(response.data.value[0]);
    }
    var query := cardName.value;
    if response.data.None? {
      return Raised(KeyError);
    }
    var data := response.data.value;
    if |data| < 1 {
      return NoResults;
    }
    var n := bound;
    for i := 0 to n
      invariant ScanFrom(data, query, n, i) == ScanFrom(data, query, n, 0)
    {
      if i >= |data| {
        return Raised(IndexError);
      }
      if Upper(data[i].name) == Upper(query) {
        return Chosen(data[i]);
      }
    }
    if answer == "y" {
      return Chosen(data[0]);
    }
    return Declined;
  }

  /** Without a "data" key both branches raise KeyError; the random branch raises IndexError on an empty list. */
  lemma MissingDataRaises(cardName: Option<string>, response: Response, answer: string)
    ensures response.data.None? ==> Selected(cardName, response, answer) == Raised(KeyError)
    ensures cardName.None? && response.data == Some([]) ==> Selected(cardName, response, answer) == Raised(IndexError)
    ensures cardName.None? && response.data.Some? && response.data.value != [] ==>
            Selected(cardName, response, answer) == Chosen(response.data.value[0])
  {
  }

  /** An empty result list gives the sentinel -1, whatever the answer. */
  lemma EmptyResultsGiveSentinel(query: string, response: Response, answer: string)
    requires response.data == Some([])
    ensures Selected(Some(query), response, answer) == NoResults
  {
  }

  /**
   * A record is chosen by the search exactly when it is the first match among
   * the indices below len(response) (and inside the list).
   */
  lemma FirstMatchIsChosen(query: string, response: Response, answer: string, k: nat)
    requires response.data.Some? && k < |response.data.value| && k < KeyCount(response)
    requires NameMatches(response.data.value[k], query)
    requires NoMatchIn(response.data.value, query, 0, k)
    ensures Selected(Some(query), response, answer) == Chosen(response.data.value[k])
  {
    FirstMatchFrom(response.data.value, query, KeyCount(response), 0, k);
  }

  lemma {:induction false} FirstMatchFrom(data: seq<Card>, query: string, bound: nat, i: nat, k: nat)
    requires i <= k < |data| && k < bound
    requires NameMatches(data[k], query) && NoMatchIn(data, query, i, k)
    ensures ScanFrom(data, query, bound, i) == Found(k)
    decreases k - i
  {
    if i < k {
      FirstMatchFrom(data, query, bound, i + 1, k);
    }
  }

  /**
   * With no exact match below the bound, and the bound within the list, the
   * answer decides: the first record on exactly "y", None otherwise.
   */
  lemma NoMatchAsksUser(query: string, response: Response, answer: string)
    requires response.data.Some? && response.data.value != []
    requires KeyCount(response) <= |response.data.value|
    requires NoMatchIn(response.data.value, query, 0, KeyCount(response))
    ensures Selected(Some(query), response, answer).Chosen? <==> answer == "y"
    ensures answer == "y" ==> Selected(Some(query), response, answer) == Chosen(response.data.value[0])
    ensures answer != "y" ==> Selected(Some(query), response, answer) == Declined
  {
    ScanFromCharacterized(response.data.value, query, KeyCount(response), 0);
  }

  /** When len(response) exceeds the list and nothing in it matches, the loop indexes past the end. */
  lemma ShortListOverruns(query: string, response: Response, answer: string)
    requires response.data.Some? && response.data.value != []
    requires |response.data.value| < KeyCount(response)
    requires NoMatchIn(response.data.value, query, 0, |response.data.value|)
    ensures Selected(Some(query), response, answer) == Raised(IndexError)
  {
    ScanFromCharacterized(response.data.value, query, KeyCount(response), 0);
  }

  /**
   * Every outcome of the named branch is one of the documented ones: the
   * sentinel for an empty list, the first match in range, the first record on
   * "y", None, or a lookup error.
   */
  lemma NamedOutcomes(query: string, response: Response, answer: string)
    requires response.data.Some?
    ensures var sel := Selected(Some(query), response, answer);
            var data := response.data.value;
            (sel == NoResults <==> data == []) &&
            (sel.Raised? ==> sel.error == IndexError && |data| < KeyCount(response)) &&
            (sel == Declined ==> answer != "y") &&
            (sel.Chosen? ==> sel.card in data)
  {
    var data := response.data.value;
    if data != [] {
      ScanFromCharacterized(data, query, KeyCount(response), 0);
    }
  }

  /** The search reaches only data[0] when the body has no key besides "data". */
  lemma {:induction false} SingleKeySearchesFirstOnly(data: seq<Card>, query: string, answer: string)
    requires |data| >= 1 && !NameMatches(data[0], query)
    ensures Selected(Some(query), Response(Some(data), 0), answer) ==
            (if answer == "y" then Chosen(data[0]) else Declined)
  {
    assert KeyCount(Response(Some(data), 0)) == 1;
    assert ScanFrom(data, query, 1, 1) == Exhausted;
  }

  /** Names of different lengths never match: upper-casing keeps the length. */
  lemma LengthsDifferNoMatch(card: Card, query: string)
    requires |card.name| != |query|
    ensures !NameMatches(card, query)
  {
    assert |Upper(card.name)| != |Upper(query)|;
  }

  const DarkMagicianGirl: Card := Card("Dark Magician Girl", "Effect Monster", "", "Effect Monster", [])
  const DarkMagician: Card := Card("Dark Magician", "Normal Monster", "", "Normal Monster", [])

  /**
   * The as-written bound in action: searching "Dark Magician" in a body with
   * only the "data" key passes over the exact match at index 1 and, on "n",
   * returns None.
   */
  lemma MissedExactMatch()
    ensures Selected(Some("Dark Magician"), Response(Some([DarkMagicianGirl, DarkMagician]), 0), "n") == Declined
  {
    LengthsDifferNoMatch(DarkMagicianGirl, "Dark Magician");
    SingleKeySearchesFirstOnly([DarkMagicianGirl, DarkMagician], "Dark Magician", "n");
  }

  /** The corrected search finds that match. */
  lemma CorrectedFindsMissedMatch()
    ensures SelectedCorrected(Some("Dark Magician"), Response(Some([DarkMagicianGirl, DarkMagician]), 0), "n") ==
            Chosen(DarkMagician)
  {
    var data := [DarkMagicianGirl, DarkMagician];
    LengthsDifferNoMatch(DarkMagicianGirl, "Dark Magician");
    FirstMatchFrom(data, "Dark Magician", 2, 0, 1);
  }

  /**
   * With the corrected bound the search never raises, and it returns a
   * matching record whenever the list holds one: the first of them.
   */
  lemma CorrectedFindsFirstMatch(query: string, response: Response, answer: string)
    requires response.data.Some?
    ensures !SelectedCorrected(Some(query), response, answer).Raised?
    ensures forall k :: 0 <= k < |response.data.value| && NameMatches(response.data.value[k], query) &&
                        NoMatchIn(response.data.value, query, 0, k) ==>
                        SelectedCorrected(Some(query), response, answer) == Chosen(response.data.value[k])
    ensures NoMatchIn(response.data.value, query, 0, |response.data.value|) && response.data.value != [] ==>
            (SelectedCorrected(Some(query), response, answer) == Chosen(response.data.value[0]) <==> answer == "y")
  {
    var data := response.data.value;
    if data != [] {
      ScanFromCharacterized(data, query, |data|, 0);
      forall k | 0 <= k < |data| && NameMatches(data[k], query) && NoMatchIn(data, query, 0, k)
        ensures SelectedCorrected(Some(query), response, answer) == Chosen(data[k])
      {
        FirstMatchFrom(data, query, |data|, 0, k);
      }
    }
  }
}
