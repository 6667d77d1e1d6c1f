/** The pure view rules of static/script.js: relevance colours, stock badges, the rows of
    the results table, the search-type label, the preferred voice, the speech-recognition
    messages, the suggestion prefixes and the stored preferences. */
module View {
  import opened Options
  import opened Text
  import opened Catalogue
  import Search

  // ---------------------------------------------------------------------------
  // Relevance colour (getRelevanceColor)

  /** The five relevance colours, from the weakest tier to the strongest. */
  const Palette: seq<string> := ["#ff6b6b", "#ff8577", "#ff9e6d", "#ffd166", "#06d6a0"]

  /** The relevance tier of a percentage: one tier per twenty points, the strongest
      from 80 on, the weakest for anything under 20. */
  function RelevanceTier(percent: int): (t: nat)
    ensures t < |Palette|
  {
    if percent < 20 then 0
    else if percent / 20 >= 4 then 4
    else percent / 20
  }

  /** getRelevanceColor: the colour of a relevance percentage. */
  function RelevanceColor(percent: int): (c: string)
    ensures c == "#06d6a0" <==> percent >= 80
    ensures c == "#ffd166" <==> 60 <= percent < 80
    ensures c == "#ff9e6d" <==> 40 <= percent < 60
    ensures c == "#ff8577" <==> 20 <= percent < 40
    ensures c == "#ff6b6b" <==> percent < 20
  {
    if percent >= 80 then "#06d6a0"
    else if percent >= 60 then "#ffd166"
    else if percent >= 40 then "#ff9e6d"
    else if percent >= 20 then "#ff8577"
    else "#ff6b6b"
  }

  /** The colour is the palette entry of the percentage's tier, so a higher percentage
      never gets a weaker colour. */
  lemma RelevanceColorByTier(p: int, q: int)
    ensures RelevanceColor(p) == Palette[RelevanceTier(p)]
    ensures p <= q ==> RelevanceTier(p) <= RelevanceTier(q)
  {
    if 20 <= p < 80 {
      assert 1 <= p / 20 <= 3;
      assert p / 20 == 1 <==> p < 40;
      assert p / 20 == 2 <==> 40 <= p < 60;
    }
    if p <= q && 20 <= p {
      assert p / 20 <= q / 20;
    }
  }

  // ---------------------------------------------------------------------------
  // Stock badge (displayResults)

  datatype StockClass = LowStock | MediumStock | HighStock {
    function Name(): string {
      match this
      case LowStock => "low-stock"
      case MediumStock => "medium-stock"
      case HighStock => "high-stock"
    }
  }

  /** `parseInt(stock) || 0`: `NaN` (and `-0`) become 0. */
  function StockValue(stock: string): int {
    JsParseInt(stock).GetOr(0)
  }

  /** The badge of a Stock cell: medium, then high above 20, then low under 5. */
  function StockTier(stock: string): (c: StockClass)
    ensures c == HighStock <==> StockValue(stock) > 20
    ensures c == LowStock <==> StockValue(stock) < 5
  {
    var stockValue := StockValue(stock);
    var stockClass := MediumStock;
    var stockClass := if stockValue > 20 then HighStock else stockClass;
    if stockValue < 5 then LowStock else stockClass
  }

  /** A Stock cell holding a number written out in decimal gets the badge of that number. */
  lemma StockTierOfNumber(n: nat)
    ensures StockTier(NatToString(n)) == if n > 20 then HighStock else if n < 5 then LowStock else MediumStock
  {
    JsParseIntOfNatToString(n);
  }

  /** `parseInt` reads a leading number and ignores what follows it. */
  lemma StockTierOfLeadingNumber()
    ensures StockTier("25") == HighStock
    ensures StockTier("12abc") == MediumStock
  {
    StockTierOfNumber(25);
    assert NatToString(25) == "25";
    JsParseIntDigitsThen("12", "abc");
    assert "12" + "abc" == "12abc";
    assert DigitsValue("12") == 12;
  }

  /** Text that is not a number reads as 0, and a negative number is low. */
  lemma StockTierOfNonNumbers()
    ensures StockTier("abc") == LowStock
    ensures StockTier("-3") == LowStock
  {
    assert TrimStart("abc", IsJsSpace) == "abc";
    assert DigitPrefix("abc") == "";
    assert JsParseInt("abc") == None;
    assert TrimStart("-3", IsJsSpace) == "-3";
    assert "-3"[1..] == "3";
    assert DigitPrefix("3") == "3";
    assert JsParseInt("-3") == Some(-3);
  }

  /** `0x` introduces hexadecimal: "0x1A" reads as 26. */
  lemma StockTierOfHex()
    ensures StockTier("0x1A") == HighStock
  {
    assert TrimStart("0x1A", IsJsSpace) == "0x1A";
    assert "0x1A"[2..] == "1A";
    assert HexPrefix("1A") == "1A";
    assert HexValue("1A") == 26 by {
      assert "1A"[..1] == "1";
      assert HexValue("1") == 1;
    }
    assert JsParseInt("0x1A") == Some(26);
  }

  // ---------------------------------------------------------------------------
  // Results table (displayResults)

  /** One result as the page receives it: the article's cells and its relevance percent,
      the rounded `Similarity * 100`. */
  datatype ResultInput = ResultInput(row: Row, percent: int)

  /** One rendered row: the cells, the stock badge, the relevance bar and whether it is
      highlighted as the best match. */
  datatype RowView = RowView(row: Row, stockClass: StockClass, percent: int, color: string, bestMatch: bool)

  /** The results table: the single "no results" row, or one row per result. */
  datatype ResultsTable = Placeholder | Rows(rows: seq<RowView>)

  /** The row at position `index` for `result`: only the first row can be the best
      match, and only above 70 percent. */
  function RowViewOf(index: nat, result: ResultInput): RowView {
    RowView(result.row, StockTier(result.row.stock), result.percent, RelevanceColor(result.percent),
      index == 0 && result.percent > 70)
  }

  /** The rows of a non-empty result list. */
  function RenderRows(results: seq<ResultInput>): seq<RowView> {
    seq(|results|, i requires 0 <= i < |results| => RowViewOf(i, results[i]))
  }

  /** The table for `data.results`: the placeholder for a missing or empty list. */
  function RenderTable(results: Option<seq<ResultInput>>): ResultsTable {
    if results.None? || results.value == [] then Placeholder else Rows(RenderRows(results.value))
  }

  /** A missing or empty list gives the placeholder and nothing else; otherwise there is
      one row per result, in order, with the result's cells, badge and colour, and at most
      the first row is the best match, exactly when its percent exceeds 70. */
  lemma RenderTableFacts(results: Option<seq<ResultInput>>)
    ensures RenderTable(results).Placeholder? <==> results.None? || results.value == []
    ensures RenderTable(results).Rows? ==>
      var rows := RenderTable(results).rows;
      && |rows| == |results.value|
      && (forall i :: 0 <= i < |rows| ==>
            rows[i].row == results.value[i].row
            && rows[i].percent == results.value[i].percent
            && rows[i].stockClass == StockTier(results.value[i].row.stock)
            && rows[i].color == RelevanceColor(results.value[i].percent))
      && (forall i :: 0 <= i < |rows| && rows[i].bestMatch ==> i == 0)
      && (rows[0].bestMatch <==> results.value[0].percent > 70)
  {
  }

  // ---------------------------------------------------------------------------
  // Search information (updateSearchInfo)

  /** The line above the table: the query, the strategy's label and icon, the count. */
  datatype SearchInfo = SearchInfo(query: string, typeText: string, icon: string, resultCount: int)

  /** The label and icon for a `search_type`; anything else, or none, is plain "Recherche". */
  function SearchLabel(searchType: Option<string>): (string, string) {
    match searchType
    case Some("exacte") => ("Recherche exacte", "fa-check-circle")
    case Some("similarité") => ("Recherche par similarité", "fa-chart-line")
    case Some("stock") => ("Recherche par stock", "fa-boxes")
    case Some("large") => ("Recherche large", "fa-expand")
    case Some("erreur") => ("Erreur", "fa-exclamation-triangle")
    case _ => ("Recherche", "fa-search")
  }

  /** Every strategy of the route has its own label and icon except "aucun", which falls
      to the default. */
  lemma SearchLabelOfRoute(t: Search.SearchType, u: Search.SearchType)
    ensures SearchLabel(Some(t.Name())) == ("Recherche", "fa-search") <==> t == Search.Aucun
    ensures t != u && t != Search.Aucun && u != Search.Aucun ==>
      SearchLabel(Some(t.Name())).0 != SearchLabel(Some(u.Name())).0
      && SearchLabel(Some(t.Name())).1 != SearchLabel(Some(u.Name())).1
  {
  }

  // ---------------------------------------------------------------------------
  // Voice choice (onvoiceschanged)

  datatype Voice = Voice(name: string, lang: string)

  /** A voice whose language starts with "fr" or whose name mentions "French". */
  predicate IsFrench(v: Voice) {
    "fr" <= v.lang || Contains(v.name, "French")
  }

  /** `voices[i]` is French and no voice before it is. */
  predicate FirstFrenchAt(voices: seq<Voice>, i: int) {
    0 <= i < |voices| && IsFrench(voices[i]) && forall j :: 0 <= j < i ==> !IsFrench(voices[j])
  }

  /** `voices.find(IsFrench)`. */
  function FindFrench(voices: seq<Voice>): (r: Option<Voice>)
    ensures r.None? <==> forall i :: 0 <= i < |voices| ==> !IsFrench(voices[i])
    ensures r.Some? ==> exists i :: FirstFrenchAt(voices, i) && voices[i] == r.value
  {
    if voices == [] then None
    else if IsFrench(voices[0]) then
      assert FirstFrenchAt(voices, 0);
      Some(voices[0])
    else
      var r := FindFrench(voices[1..]);
      FindFrenchShift(voices, r);
      r
  }

  lemma FindFrenchShift(voices: seq<Voice>, r: Option<Voice>)
    requires voices != [] && !IsFrench(voices[0])
    requires r.Some? ==> exists i :: FirstFrenchAt(voices[1..], i) && voices[1..][i] == r.value
    ensures r.Some? ==> exists i :: FirstFrenchAt(voices, i) && voices[i] == r.value
  {
    if r.Some? {
      var i :| FirstFrenchAt(voices[1..], i) && voices[1..][i] == r.value;
      forall j | 0 <= j < i + 1
        ensures !IsFrench(voices[j])
      {
        if j > 0 {
          assert voices[j] == voices[1..][j - 1];
        }
      }
      assert FirstFrenchAt(voices, i + 1);
    }
  }

  /** `voices.find(IsFrench) || voices[0]`: the first French voice, else the first voice,
      else none. */
  function PreferredVoice(voices: seq<Voice>): (r: Option<Voice>)
    ensures r.None? <==> voices == []
    ensures r.Some? ==> r.value in voices
    ensures (exists i :: 0 <= i < |voices| && IsFrench(voices[i])) ==> r.Some? && IsFrench(r.value)
    ensures (forall i :: 0 <= i < |voices| ==> !IsFrench(voices[i])) && voices != [] ==> r == Some(voices[0])
    ensures FindFrench(voices).Some? ==> r == FindFrench(voices)
    ensures forall i :: FirstFrenchAt(voices, i) ==> r == Some(voices[i])
  {
    var french := FindFrench(voices);
    if french.Some? then french
    else if voices == [] then None
    else Some(voices[0])
  }

  // ---------------------------------------------------------------------------
  // Speech-recognition messages (onresult, onerror)

  /** One entry of `event.results`: whether it is final and its first alternative. */
  datatype SpeechResult = SpeechResult(isFinal: bool, transcript: string)

  /** The final transcripts of `results`, concatenated in order. */
  function FinalText(results: seq<SpeechResult>): string {
    if results == [] then "" else
      var last := results[|results| - 1];
      FinalText(results[..|results| - 1]) + (if last.isFinal then last.transcript else "")
  }

  /** The interim transcripts of `results`, concatenated in order. */
  function InterimText(results: seq<SpeechResult>): string {
    if results == [] then "" else
      var last := results[|results| - 1];
      InterimText(results[..|results| - 1]) + (if last.isFinal then "" else last.transcript)
  }

  /** The results from `resultIndex` on, none when it is past the end. */
  function FromIndex(results: seq<SpeechResult>, resultIndex: nat): seq<SpeechResult> {
    if resultIndex <= |results| then results[resultIndex..] else []
  }

  /** The final text is empty exactly when every final result has an empty transcript. */
  lemma {:induction false} FinalTextEmpty(results: seq<SpeechResult>)
    ensures FinalText(results) == "" <==>
      forall i :: 0 <= i < |results| && results[i].isFinal ==> results[i].transcript == ""
  {
    if results != [] {
      var p := results[..|results| - 1];
      FinalTextEmpty(p);
      assert forall i :: 0 <= i < |p| ==> p[i] == results[i];
    }
  }

  /** The interim text is empty exactly when every interim result has an empty transcript. */
  lemma {:induction false} InterimTextEmpty(results: seq<SpeechResult>)
    ensures InterimText(results) == "" <==>
      forall i :: 0 <= i < |results| && !results[i].isFinal ==> results[i].transcript == ""
  {
    if results != [] {
      var p := results[..|results| - 1];
      InterimTextEmpty(p);
      assert forall i :: 0 <= i < |p| ==> p[i] == results[i];
    }
  }

  /** Every result's transcript lands in exactly one of the two texts. */
  lemma {:induction false} TranscriptsSplit(results: seq<SpeechResult>)
    ensures |FinalText(results)| + |InterimText(results)| == TranscriptLength(results)
  {
    if results != [] {
      TranscriptsSplit(results[..|results| - 1]);
    }
  }

  /** The final text of consecutive results is the final text of each part, in order. */
  lemma {:induction false} FinalTextAppend(a: seq<SpeechResult>, b: seq<SpeechResult>)
    ensures FinalText(a + b) == FinalText(a) + FinalText(b)
  {
    if b == [] {
      assert a + b == a;
    } else {
      var p, x := b[..|b| - 1], b[|b| - 1];
      LastOfAppend(a, b);
      assert FinalText(a + b) == FinalText(a + p) + (if x.isFinal then x.transcript else "");
      FinalTextAppend(a, p);
      assert FinalText(b) == FinalText(p) + (if x.isFinal then x.transcript else "");
    }
  }

  /** The interim text of consecutive results is the interim text of each part, in order. */
  lemma {:induction false} InterimTextAppend(a: seq<SpeechResult>, b: seq<SpeechResult>)
    ensures InterimText(a + b) == InterimText(a) + InterimText(b)
  {
    if b == [] {
      assert a + b == a;
    } else {
      var p, x := b[..|b| - 1], b[|b| - 1];
      LastOfAppend(a, b);
      assert InterimText(a + b) == InterimText(a + p) + (if x.isFinal then "" else x.transcript);
      InterimTextAppend(a, p);
      assert InterimText(b) == InterimText(p) + (if x.isFinal then "" else x.transcript);
    }
  }

  /** Dropping the last result of `a + b`, for a non-empty `b`. */
  lemma LastOfAppend(a: seq<SpeechResult>, b: seq<SpeechResult>)
    requires b != []
    ensures (a + b)[..|a + b| - 1] == a + b[..|b| - 1] && (a + b)[|a + b| - 1] == b[|b| - 1]
  {
  }

  /** One result adds its transcript to the final text when it is final and to the
      interim text otherwise, and nothing to the other one. */
  lemma ResultGoesToOneText(a: seq<SpeechResult>, x: SpeechResult)
    ensures FinalText(a + [x]) == FinalText(a) + (if x.isFinal then x.transcript else "")
    ensures InterimText(a + [x]) == InterimText(a) + (if x.isFinal then "" else x.transcript)
  {
    FinalTextAppend(a, [x]);
    InterimTextAppend(a, [x]);
    assert [x][..0] == [];
  }

  /** The total length of the transcripts of `results`. */
  function TranscriptLength(results: seq<SpeechResult>): nat {
    if results == [] then 0
    else TranscriptLength(results[..|results| - 1]) + |results[|results| - 1].transcript|
  }

  /** The accumulation loop of onresult: the final and the interim transcripts of the
      results from `resultIndex` on. */
  method AccumulateTranscripts(results: seq<SpeechResult>, resultIndex: nat)
    returns (finalTranscript: string, interimTranscript: string)
    ensures finalTranscript == FinalText(FromIndex(results, resultIndex))
    ensures interimTranscript == InterimText(FromIndex(results, resultIndex))
  {
    finalTranscript := "";
    interimTranscript := "";
    if resultIndex > |results| {
      return;
    }
    var i := resultIndex;
    while i < |results|
      invariant resultIndex <= i <= |results|
      invariant finalTranscript == FinalText(results[resultIndex..i])
      invariant interimTranscript == InterimText(results[resultIndex..i])
    {
      assert results[resultIndex..i + 1][..i - resultIndex] == results[resultIndex..i];
      if results[i].isFinal {
        finalTranscript := finalTranscript + results[i].transcript;
      } else {
        interimTranscript := interimTranscript + results[i].transcript;
      }
      i := i + 1;
    }
    assert results[resultIndex..i] == results[resultIndex..];
  }

  /** The bot message echoing what was heard. */
  function HeardMessage(finalTranscript: string): string {
    "🗣️ Vous avez dit: \"" + finalTranscript + "\""
  }

  const RecognitionErrorPrefix: string := "Erreur de reconnaissance vocale. "

  /** The message for a recognition error code: three known codes have their own
      explanation, every other code asks to try again. */
  function RecognitionErrorMessage(error: string): (m: string)
    ensures RecognitionErrorPrefix <= m
    ensures m == RecognitionErrorPrefix + "Veuillez réessayer." <==>
      error != "no-speech" && error != "audio-capture" && error != "not-allowed"
  {
    RecognitionErrorPrefix +
      match error
      case "no-speech" => "Aucune parole détectée."
      case "audio-capture" => "Problème avec le microphone."
      case "not-allowed" => "Microphone non autorisé."
      case _ => "Veuillez réessayer."
  }

  /** Distinct known codes give distinct messages. */
  lemma RecognitionErrorsDistinct(e1: string, e2: string)
    requires e1 in {"no-speech", "audio-capture", "not-allowed"}
    requires e1 != e2
    ensures RecognitionErrorMessage(e1) != RecognitionErrorMessage(e2)
  {
    var m1, m2 := RecognitionErrorMessage(e1), RecognitionErrorMessage(e2);
    var k := |RecognitionErrorPrefix|;
    assert m1[k..] != m2[k..];
  }

  // ---------------------------------------------------------------------------
  // Suggestion prefixes (navigateSuggestions and the Tab key)

  /** The suggestion with the first "Code: ", then the first "Article: ", then the first
      "Référence: " removed. */
  function StripSuggestion(s: string): string {
    ReplaceFirst(ReplaceFirst(ReplaceFirst(s, "Code: ", ""), "Article: ", ""), "Référence: ", "")
  }

  /** A cell in which none of the three labels occurs. */
  predicate Unlabelled(cell: string) {
    !Contains(cell, "Code: ") && !Contains(cell, "Article: ") && !Contains(cell, "Référence: ")
  }

  /** Removing the labels gives back the cell behind any one of them. */
  lemma StripLabel(cell: string)
    requires Unlabelled(cell)
    ensures StripSuggestion("Code: " + cell) == cell
    ensures StripSuggestion("Article: " + cell) == cell
    ensures StripSuggestion("Référence: " + cell) == cell
  {
    StripCodeLabel(cell);
    StripArticleLabel(cell);
    StripReferenceLabel(cell);
  }

  lemma StripCodeLabel(cell: string)
    requires Unlabelled(cell)
    ensures StripSuggestion("Code: " + cell) == cell
  {
    assert ("Code: " + cell)[|"Code: "|..] == cell;
    ReplaceFirstFacts("Code: " + cell, "Code: ", "");
    ReplaceFirstFacts(cell, "Article: ", "");
    ReplaceFirstFacts(cell, "Référence: ", "");
  }

  lemma StripArticleLabel(cell: string)
    requires Unlabelled(cell)
    ensures StripSuggestion("Article: " + cell) == cell
  {
    assert ("Article: " + cell)[|"Article: "|..] == cell;
    NotContainsAfterPrefix("Article: ", cell, "Code: ");
    ReplaceFirstFacts("Article: " + cell, "Code: ", "");
    ReplaceFirstFacts("Article: " + cell, "Article: ", "");
    ReplaceFirstFacts(cell, "Référence: ", "");
  }

  lemma StripReferenceLabel(cell: string)
    requires Unlabelled(cell)
    ensures StripSuggestion("Référence: " + cell) == cell
  {
    assert ("Référence: " + cell)[|"Référence: "|..] == cell;
    NotContainsAfterPrefix("Référence: ", cell, "Code: ");
    NotContainsAfterPrefix("Référence: ", cell, "Article: ");
    ReplaceFirstFacts("Référence: " + cell, "Code: ", "");
    ReplaceFirstFacts("Référence: " + cell, "Article: ", "");
    ReplaceFirstFacts("Référence: " + cell, "Référence: ", "");
  }

  /** Round trip with get_suggestions: when no cell holds a label, removing the labels
      from the suggestions gives the first five Codes, then the first three Designations,
      then the first three References. */
  lemma StripSuggestionsRoundTrip(table: seq<Row>)
    requires forall r :: r in table ==> Unlabelled(r.code) && Unlabelled(r.designation) && Unlabelled(r.reference)
    ensures var s := Search.GetSuggestions(table); var n, m := Min(5, |table|), Min(3, |table|);
      && |s| == n + 2 * m
      && (forall i :: 0 <= i < n ==> StripSuggestion(s[i]) == table[i].code)
      && (forall i :: 0 <= i < m ==> StripSuggestion(s[n + i]) == table[i].designation)
      && (forall i :: 0 <= i < m ==> StripSuggestion(s[n + m + i]) == table[i].reference)
  {
    var s := Search.GetSuggestions(table);
    var n, m := Min(5, |table|), Min(3, |table|);
    forall i | 0 <= i < n
      ensures StripSuggestion(s[i]) == table[i].code
    {
      assert s[i] == "Code: " + table[i].code;
      assert table[i] in table;
      StripCodeLabel(table[i].code);
    }
    forall i | 0 <= i < m
      ensures StripSuggestion(s[n + i]) == table[i].designation
    {
      assert s[n + i] == "Article: " + table[i].designation;
      assert table[i] in table;
      StripArticleLabel(table[i].designation);
    }
    forall i | 0 <= i < m
      ensures StripSuggestion(s[n + m + i]) == table[i].reference
    {
      assert s[n + m + i] == "Référence: " + table[i].reference;
      assert table[i] in table;
      StripReferenceLabel(table[i].reference);
    }
  }

  // ---------------------------------------------------------------------------
  // Stored preferences (loadSavedPreferences)

  /** `localStorage.getItem(key) || fallback`: a missing or empty value gives the fallback. */
  function ReadPreference(storage: map<string, string>, key: string, fallback: string): string {
    if key in storage && storage[key] != "" then storage[key] else fallback
  }

  /** The voice output is on exactly when "voiceOutput" holds "enabled". */
  function VoiceOutputPreference(storage: map<string, string>): (on: bool)
    ensures on <==> "voiceOutput" in storage && storage["voiceOutput"] == "enabled"
  {
    ReadPreference(storage, "voiceOutput", "disabled") == "enabled"
  }

  /** The dark theme is asked for exactly when "theme" holds "dark". */
  function DarkThemePreference(storage: map<string, string>): (dark: bool)
    ensures dark <==> "theme" in storage && storage["theme"] == "dark"
  {
    ReadPreference(storage, "theme", "light") == "dark"
  }

  /** The value each toggle stores for its flag. */
  function VoiceOutputValue(on: bool): string {
    if on then "enabled" else "disabled"
  }

  function ThemeValue(dark: bool): string {
    if dark then "dark" else "light"
  }

  /** Round trip: a stored flag reads back as itself, whatever else is stored. */
  lemma PreferencesRoundTrip(storage: map<string, string>, on: bool, dark: bool)
    ensures VoiceOutputPreference(storage["voiceOutput" := VoiceOutputValue(on)]) == on
    ensures DarkThemePreference(storage["theme" := ThemeValue(dark)]) == dark
    ensures VoiceOutputPreference(storage["theme" := ThemeValue(dark)]) == VoiceOutputPreference(storage)
    ensures DarkThemePreference(storage["voiceOutput" := VoiceOutputValue(on)]) == DarkThemePreference(storage)
  {
  }
}
