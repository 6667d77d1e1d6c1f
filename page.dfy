/** The chat page of static/script.js as a state machine: the input field, the chat
    transcript, the suggestion cursor, the voice and theme preferences with their stored
    values, the calls made on the speech-synthesis engine, and the results table. Every
    handler is a method; network replies and browser events are parameters. */
module Page {
  import opened Options
  import opened Text
  import opened View

  /** One entry of the chat transcript; `Loading` is the "search in progress" bubble. */
  datatype Entry = UserMessage(text: string) | BotMessage(text: string) | Loading

  /** A call made on the speech-synthesis engine. */
  datatype SynthCall = Cancel | Speak(text: string, voice: Option<Voice>)

  /** The JSON body of a search reply as far as the page reads it: the JSON value null,
      or an object whose `message`, `results` and `search_type` members may be missing. */
  datatype Reply =
    | NullBody
    | Body(message: Option<string>, results: Option<seq<ResultInput>>, searchType: Option<string>)

  /** What `fetch` followed by `response.json()` yields: a body, or a failure (network
      error or a body that is not JSON). */
  datatype Fetch<T> = Fetched(body: T) | FetchFailed

  /** The reply to /api/suggestions: its list, an object without one, or nothing usable. */
  datatype SuggestionsReply = SuggestionsList(list: seq<string>) | NoSuggestionsField | SuggestionsUnavailable

  const DefaultReply: string := "Voici les résultats de votre recherche."
  const SearchFailed: string := "❌ Désolé, une erreur est survenue lors de la recherche. Veuillez réessayer."
  const VoiceOnText: string := "Voix activée. Je vais maintenant lire mes réponses à voix haute."
  const DarkOnText: string := "🌙 Thème sombre activé"
  const LightOnText: string := "☀️ Thème clair activé"
  const SuggestionsIntro: string := "💡 Suggestions de recherche :\n• "

  /** Bot messages of this many UTF-16 code units or more are not read aloud. */
  const SpeakLimit: nat := 500

  // ---------------------------------------------------------------------------
  // The suggestion cursor

  /** JavaScript's `a % n` for a positive `n`: the remainder takes the sign of `a`
      (a remainder of -0 behaves as the index 0). */
  function JsRem(a: int, n: int): (r: int)
    requires n > 0
    ensures a >= 0 ==> 0 <= r < n
    ensures a < 0 ==> -n < r <= 0
    ensures (a - r) % n == 0
  {
    RemainderSteps(a, n);
    if a >= 0 then a % n else -((-a) % n)
  }

  /** Taking away the remainder, or the remainder of the negation, leaves a multiple of `n`. */
  lemma RemainderSteps(a: int, n: int)
    requires n > 0
    ensures (a - a % n) % n == 0
    ensures (a + (-a) % n) % n == 0
  {
    MultipleMod(a / n, n);
    MultipleMod(-((-a) / n), n);
    assert a - a % n == (a / n) * n;
    assert a + (-a) % n == -((-a) / n) * n;
  }

  /** A multiple of `n` leaves no remainder. */
  lemma MultipleMod(q: int, n: int)
    requires n > 0
    ensures (q * n) % n == 0
  {
    var x := q * n;
    var m := q - x / n;
    assert x % n == m * n;
  }

  /** The cursor after ArrowDown (`(i + 1) % n`) or ArrowUp (`(i - 1 + n) % n`). */
  function NextIndex(i: int, n: int, isDown: bool): int
    requires n > 0
  {
    if isDown then JsRem(i + 1, n) else JsRem(i - 1 + n, n)
  }

  /** From any cursor the page can hold, both arrows land on a suggestion. */
  lemma NextIndexInRange(i: int, n: int, isDown: bool)
    requires i >= -1 && n > 0
    ensures 0 <= NextIndex(i, n, isDown) < n
  {
    if !isDown && i - 1 + n < 0 {
      assert n == 1 && i == -1;
    }
  }

  lemma ModOfSmall(a: int, n: int)
    requires 0 <= a < n
    ensures a % n == a
  {
  }

  lemma ModOfShifted(a: int, n: int)
    requires 0 <= a < n
    ensures (a + n) % n == a
  {
    assert (a + n) / n == 1;
  }

  /** The arrows walk the list cyclically: Down moves to the next suggestion and wraps to
      the first, Up moves to the previous one and wraps to the last; from "none selected"
      Down picks the first and Up the one before the last (the only one when n is 1). */
  lemma NextIndexSteps(i: int, n: int)
    requires n > 0
    ensures -1 <= i < n - 1 ==> NextIndex(i, n, true) == i + 1
    ensures NextIndex(n - 1, n, true) == 0
    ensures 0 < i < n ==> NextIndex(i, n, false) == i - 1
    ensures NextIndex(0, n, false) == n - 1
    ensures n >= 2 ==> NextIndex(-1, n, false) == n - 2
    ensures n == 1 ==> NextIndex(-1, n, false) == 0
  {
    if -1 <= i < n - 1 {
      ModOfSmall(i + 1, n);
    }
    if 0 < i < n {
      ModOfShifted(i - 1, n);
    }
    ModOfSmall(n - 1, n);
    if n >= 2 {
      ModOfSmall(n - 2, n);
    }
  }

  /** Up undoes Down and Down undoes Up on every selected suggestion. */
  lemma UpUndoesDown(i: int, n: int)
    requires 0 <= i < n
    ensures NextIndex(NextIndex(i, n, true), n, false) == i
    ensures NextIndex(NextIndex(i, n, false), n, true) == i
  {
    NextIndexSteps(i, n);
    NextIndexInRange(i, n, true);
    NextIndexInRange(i, n, false);
    NextIndexSteps(NextIndex(i, n, true), n);
    NextIndexSteps(NextIndex(i, n, false), n);
  }

  // ---------------------------------------------------------------------------
  // The transcript

  /** `removeLoadingMessage`: the transcript without its first loading entry. */
  function RemoveLoading(t: seq<Entry>): (r: seq<Entry>)
    ensures Loading !in t ==> r == t
    ensures Loading in t ==> exists i :: FirstLoadingAt(t, i) && r == t[..i] + t[i + 1..]
  {
    if t == [] then []
    else if t[0] == Loading then
      assert FirstLoadingAt(t, 0);
      assert t == t[..0] + [t[0]] + t[1..];
      t[1..]
    else
      var r := RemoveLoading(t[1..]);
      RemoveLoadingShift(t, r);
      [t[0]] + r
  }

  /** `t[i]` is the first loading entry of `t`. */
  predicate FirstLoadingAt(t: seq<Entry>, i: int) {
    0 <= i < |t| && t[i] == Loading && Loading !in t[..i]
  }

  lemma RemoveLoadingShift(t: seq<Entry>, r: seq<Entry>)
    requires t != [] && t[0] != Loading
    requires Loading !in t[1..] ==> r == t[1..]
    requires Loading in t[1..] ==> exists i :: FirstLoadingAt(t[1..], i) && r == t[1..][..i] + t[1..][i + 1..]
    ensures Loading !in t ==> [t[0]] + r == t
    ensures Loading in t ==> exists i :: FirstLoadingAt(t, i) && [t[0]] + r == t[..i] + t[i + 1..]
  {
    var u := t[1..];
    assert t == [t[0]] + u;
    if Loading in t {
      assert Loading in u;
      var i :| FirstLoadingAt(u, i) && r == u[..i] + u[i + 1..];
      FirstLoadingShift(t, i);
    }
  }

  /** The first loading entry of `t[1..]` at `i` is that of `t` at `i + 1`, when `t[0]` is
      not loading. */
  lemma FirstLoadingShift(t: seq<Entry>, i: int)
    requires t != [] && t[0] != Loading && FirstLoadingAt(t[1..], i)
    ensures FirstLoadingAt(t, i + 1)
    ensures [t[0]] + (t[1..][..i] + t[1..][i + 1..]) == t[..i + 1] + t[i + 2..]
  {
    var u := t[1..];
    assert t[..i + 1] == [t[0]] + u[..i];
    assert t[i + 2..] == u[i + 1..];
  }

  /** The loading bubble the send adds at the end is the one it removes. */
  lemma RemoveLoadingAppended(t: seq<Entry>)
    requires Loading !in t
    ensures RemoveLoading(t + [Loading]) == t
  {
    var r := RemoveLoading(t + [Loading]);
    var i :| FirstLoadingAt(t + [Loading], i) && r == (t + [Loading])[..i] + (t + [Loading])[i + 1..];
    assert (t + [Loading])[..i] == t;
  }

  /** `data.message || default`: a missing or empty message gives the default text. */
  function ServerMessage(message: Option<string>): string {
    if message.Some? && message.value != "" then message.value else DefaultReply
  }

  /** The bot messages a search reply adds after the user's message. */
  function BotReplies(reply: Fetch<Reply>): seq<string> {
    match reply
    case Fetched(Body(message, results, _)) =>
      [ServerMessage(message)] + (if results.None? then [SearchFailed] else [])
    case _ => [SearchFailed]
  }

  /** A failed request, a null body or a reply without `results` ends in the error
      message; a reply with an object body starts with the server's message, which is
      then followed by the error message exactly when `results` is missing (reading its
      length throws inside the `try`). */
  lemma BotRepliesFacts(reply: Fetch<Reply>)
    ensures 1 <= |BotReplies(reply)| <= 2
    ensures (reply.FetchFailed? || reply.body.NullBody? || reply.body.results.None?) <==>
      BotReplies(reply)[|BotReplies(reply)| - 1] == SearchFailed
        && (|BotReplies(reply)| == 2 || reply.FetchFailed? || reply.body.NullBody?)
    ensures reply.Fetched? && reply.body.Body? ==>
      BotReplies(reply)[0] == ServerMessage(reply.body.message) && ServerMessage(reply.body.message) != ""
  {
  }

  /** The transcript entries of bot messages, in order. */
  function BotEntries(texts: seq<string>): seq<Entry>
  {
    if texts == [] then [] else [BotMessage(texts[0])] + BotEntries(texts[1..])
  }

  /** Bot messages are never the loading bubble: one entry per text, in order. */
  lemma {:induction false} BotEntriesFacts(texts: seq<string>)
    ensures |BotEntries(texts)| == |texts| && Loading !in BotEntries(texts)
    ensures forall i :: 0 <= i < |texts| ==> BotEntries(texts)[i] == BotMessage(texts[i])
  {
    if texts != [] {
      BotEntriesFacts(texts[1..]);
    }
  }

  // ---------------------------------------------------------------------------
  // The page

  class ChatPage {
    var input: string
    var transcript: seq<Entry>
    var suggestions: seq<string>
    var suggestionIndex: int
    var voiceOutputEnabled: bool
    var isSpeaking: bool
    var isListening: bool
    var darkTheme: bool
    var storage: map<string, string>
    const synthesisAvailable: bool
    var currentVoice: Option<Voice>
    var synthCalls: seq<SynthCall>
    var resultsTable: Option<ResultsTable>
    var searchInfo: Option<SearchInfo>

    /** Between handlers the cursor is a position or -1 ("none selected") and no
        search is in progress. */
    predicate Valid()
      reads this`suggestionIndex, this`transcript
    {
      suggestionIndex >= -1 && Loading !in transcript
    }

    /** The page as loaded, with what the browser has stored and whether it can speak. */
    constructor (storage: map<string, string>, synthesisAvailable: bool)
      ensures Valid()
      ensures this.storage == storage && this.synthesisAvailable == synthesisAvailable
      ensures input == "" && transcript == [] && suggestions == [] && suggestionIndex == -1
      ensures !voiceOutputEnabled && !isSpeaking && !isListening && !darkTheme
      ensures currentVoice == None && synthCalls == [] && resultsTable == None && searchInfo == None
    {
      input := "";
      transcript := [];
      suggestions := [];
      suggestionIndex := -1;
      voiceOutputEnabled := false;
      isSpeaking := false;
      isListening := false;
      darkTheme := false;
      this.storage := storage;
      this.synthesisAvailable := synthesisAvailable;
      currentVoice := None;
      synthCalls := [];
      resultsTable := None;
      searchInfo := None;
    }

    // -------------------------------------------------------------------------
    // Speech output

    /** What `speakText(text)` asks of the engine: nothing without an engine, with the
        voice off or while an utterance is playing; otherwise cancel, then speak. */
    function SpeechFor(text: string): seq<SynthCall>
      reads this`voiceOutputEnabled, this`isSpeaking, this`currentVoice
    {
      if !synthesisAvailable || !voiceOutputEnabled || isSpeaking then []
      else [Cancel, Speak(text, currentVoice)]
    }

    /** What `addBotMessage(text)` asks of the engine: it reads only texts shorter than
        500 code units, and only with the voice on. */
    function BotSpeech(text: string): seq<SynthCall>
      reads this`voiceOutputEnabled, this`isSpeaking, this`currentVoice
    {
      if voiceOutputEnabled && Utf16Length(text) < SpeakLimit then SpeechFor(text) else []
    }

    /** What a run of bot messages asks of the engine, message by message. */
    function BotSpeechAll(texts: seq<string>): seq<SynthCall>
      reads this`voiceOutputEnabled, this`isSpeaking, this`currentVoice
    {
      if texts == [] then [] else BotSpeech(texts[0]) + BotSpeechAll(texts[1..])
    }

    /** One or two bot messages, entry by entry and utterance by utterance. */
    lemma BotRepliesOfOne(a: string)
      ensures BotEntries([a]) == [BotMessage(a)]
      ensures BotSpeechAll([a]) == BotSpeech(a)
    {
      assert [a][1..] == [];
    }

    lemma BotRepliesOfTwo(a: string, b: string)
      ensures BotEntries([a, b]) == [BotMessage(a), BotMessage(b)]
      ensures BotSpeechAll([a, b]) == BotSpeech(a) + BotSpeech(b)
    {
      assert [a, b][1..] == [b];
      BotRepliesOfOne(b);
    }

    /** The entries and the speech of the replies to an object body, message by message. */
    lemma BodyReplies(reply: Fetch<Reply>)
      requires reply.Fetched? && reply.body.Body?
      ensures BotEntries(BotReplies(reply)) == [BotMessage(ServerMessage(reply.body.message))]
        + (if reply.body.results.None? then [BotMessage(SearchFailed)] else [])
      ensures BotSpeechAll(BotReplies(reply)) == BotSpeech(ServerMessage(reply.body.message))
        + (if reply.body.results.None? then BotSpeech(SearchFailed) else [])
    {
      var botMessage := ServerMessage(reply.body.message);
      if reply.body.results.None? {
        assert BotReplies(reply) == [botMessage, SearchFailed];
        BotRepliesOfTwo(botMessage, SearchFailed);
      } else {
        assert BotReplies(reply) == [botMessage];
        BotRepliesOfOne(botMessage);
      }
    }

    method SpeakText(text: string)
      modifies this`synthCalls
      ensures synthCalls == old(synthCalls) + SpeechFor(text)
    {
      if !synthesisAvailable || !voiceOutputEnabled || isSpeaking {
        return;
      }
      synthCalls := synthCalls + [Cancel];
      synthCalls := synthCalls + [Speak(text, currentVoice)];
    }

    /** utterance.onstart */
    method OnUtteranceStart()
      modifies this`isSpeaking
      ensures isSpeaking
    {
      isSpeaking := true;
    }

    /** utterance.onend and utterance.onerror */
    method OnUtteranceEnd()
      modifies this`isSpeaking
      ensures !isSpeaking
    {
      isSpeaking := false;
    }

    // -------------------------------------------------------------------------
    // Messages

    method AddBotMessage(text: string)
      modifies this`transcript, this`synthCalls
      ensures transcript == old(transcript) + [BotMessage(text)]
      ensures synthCalls == old(synthCalls) + BotSpeech(text)
    {
      transcript := transcript + [BotMessage(text)];
      if voiceOutputEnabled && Utf16Length(text) < SpeakLimit {
        SpeakText(text);
      }
    }

    method RemoveLoadingMessage()
      modifies this`transcript
      ensures transcript == RemoveLoading(old(transcript))
    {
      transcript := RemoveLoading(transcript);
    }

    /** displayResults: the placeholder row, or one row per result built in order. */
    method DisplayResults(results: Option<seq<ResultInput>>)
      modifies this`resultsTable
      ensures resultsTable == Some(RenderTable(results))
    {
      if results.None? || |results.value| == 0 {
        resultsTable := Some(Placeholder);
        return;
      }
      var list := results.value;
      ghost var all := RenderRows(list);
      var rows: seq<RowView> := [];
      var index := 0;
      while index < |list|
        invariant 0 <= index <= |list|
        invariant rows == all[..index]
      {
        var row := BuildRow(index, list[index]);
        assert all[..index + 1] == all[..index] + [row];
        rows := rows + [row];
        index := index + 1;
      }
      assert all[..|list|] == all;
      resultsTable := Some(Rows(rows));
    }

    /** The body of the forEach of displayResults: one row, its badge, its colour, and the
        best-match mark for a first result above 70%. */
    static method BuildRow(index: nat, result: ResultInput) returns (row: RowView)
      ensures row == RowViewOf(index, result)
    {
      var stockClass := StockTier(result.row.stock);
      var relevanceColor := RelevanceColor(result.percent);
      row := RowView(result.row, stockClass, result.percent, relevanceColor, false);
      if index == 0 && result.percent > 70 {
        row := row.(bestMatch := true);
      }
    }

    /** updateSearchInfo */
    method UpdateSearchInfo(query: string, searchType: Option<string>, resultCount: int)
      modifies this`searchInfo
      ensures searchInfo == Some(SearchInfo(query, SearchLabel(searchType).0, SearchLabel(searchType).1, resultCount))
    {
      var (typeText, icon) := SearchLabel(searchType);
      searchInfo := Some(SearchInfo(query, typeText, icon, resultCount));
    }

    /** sendMessage: a blank input does nothing; otherwise the trimmed query goes into the
        transcript, the input is cleared, the loading bubble comes and goes, and the
        reply's messages, table and search line follow. */
    method SendMessage(reply: Fetch<Reply>)
      requires Valid()
      modifies this`input, this`transcript, this`synthCalls, this`resultsTable, this`searchInfo
      ensures Valid()
      ensures JsTrim(old(input)) == "" ==>
        input == old(input) && transcript == old(transcript) && synthCalls == old(synthCalls)
        && resultsTable == old(resultsTable) && searchInfo == old(searchInfo)
      ensures JsTrim(old(input)) != "" ==>
        && input == ""
        && transcript == old(transcript) + [UserMessage(JsTrim(old(input)))] + BotEntries(BotReplies(reply))
        && synthCalls == old(synthCalls) + BotSpeechAll(BotReplies(reply))
        && resultsTable == (if reply.Fetched? && reply.body.Body? then Some(RenderTable(reply.body.results)) else old(resultsTable))
        && searchInfo == (if reply.Fetched? && reply.body.Body? && reply.body.results.Some? then
             Some(SearchInfo(JsTrim(old(input)), SearchLabel(reply.body.searchType).0,
               SearchLabel(reply.body.searchType).1, |reply.body.results.value|))
           else old(searchInfo))
    {
      var query := JsTrim(input);
      if query != "" {
        Submit(query, reply);
      }
    }

    /** The part of sendMessage after the blank-input check, for the trimmed query. */
    method Submit(query: string, reply: Fetch<Reply>)
      requires Valid()
      modifies this`input, this`transcript, this`synthCalls, this`resultsTable, this`searchInfo
      ensures Valid()
      ensures input == ""
      ensures transcript == old(transcript) + [UserMessage(query)] + BotEntries(BotReplies(reply))
      ensures synthCalls == old(synthCalls) + BotSpeechAll(BotReplies(reply))
      ensures resultsTable == if reply.Fetched? && reply.body.Body? then Some(RenderTable(reply.body.results)) else old(resultsTable)
      ensures searchInfo == if reply.Fetched? && reply.body.Body? && reply.body.results.Some? then
          Some(SearchInfo(query, SearchLabel(reply.body.searchType).0, SearchLabel(reply.body.searchType).1, |reply.body.results.value|))
        else old(searchInfo)
    {
      Start(query);
      BotEntriesFacts(BotReplies(reply));
      Answer(query, reply);
    }

    /** The reply to a sent query, once the loading bubble is at the end of the
        transcript: the `try` block or the `catch` block. */
    method Answer(query: string, reply: Fetch<Reply>)
      requires |transcript| > 0 && RemoveLoading(transcript) == transcript[..|transcript| - 1]
      requires Loading !in transcript[..|transcript| - 1]
      modifies this`transcript, this`synthCalls, this`resultsTable, this`searchInfo
      ensures transcript == old(transcript[..|transcript| - 1]) + BotEntries(BotReplies(reply))
      ensures synthCalls == old(synthCalls) + BotSpeechAll(BotReplies(reply))
      ensures resultsTable == if reply.Fetched? && reply.body.Body? then Some(RenderTable(reply.body.results)) else old(resultsTable)
      ensures searchInfo == if reply.Fetched? && reply.body.Body? && reply.body.results.Some? then
          Some(SearchInfo(query, SearchLabel(reply.body.searchType).0, SearchLabel(reply.body.searchType).1, |reply.body.results.value|))
        else old(searchInfo)
    {
      if reply.Fetched? && reply.body.Body? {
        ShowReply(query, reply);
      } else {
        ShowFailure(reply);
      }
    }

    /** The start of a search: the user's message, an emptied input, the loading bubble. */
    method Start(query: string)
      requires Valid()
      modifies this`input, this`transcript
      ensures input == ""
      ensures transcript == old(transcript) + [UserMessage(query), Loading]
      ensures RemoveLoading(transcript) == transcript[..|transcript| - 1]
      ensures Loading !in transcript[..|transcript| - 1]
      ensures transcript[..|transcript| - 1] == old(transcript) + [UserMessage(query)]
    {
      var before := transcript + [UserMessage(query)];
      transcript := before + [Loading];
      input := "";
      RemoveLoadingAppended(before);
      assert transcript[..|transcript| - 1] == before;
    }

    /** The `catch` block of sendMessage when the request or `response.json()` failed, or
        when reading `null.message` threw: the loading bubble goes and the error message
        comes. */
    method ShowFailure(reply: Fetch<Reply>)
      requires !(reply.Fetched? && reply.body.Body?)
      requires |transcript| > 0 && RemoveLoading(transcript) == transcript[..|transcript| - 1]
      modifies this`transcript, this`synthCalls
      ensures transcript == old(transcript[..|transcript| - 1]) + BotEntries(BotReplies(reply))
      ensures synthCalls == old(synthCalls) + BotSpeechAll(BotReplies(reply))
    {
      RemoveLoadingMessage();
      AddBotMessage(SearchFailed);
      assert BotReplies(reply) == [SearchFailed];
      BotRepliesOfOne(SearchFailed);
    }

    /** The `try` block of sendMessage after a reply with an object body: the loading
        bubble goes, the server's message and the table come, and the search line follows
        unless reading `data.results.length` throws, in which case the `catch` block adds
        the error message. */
    method ShowReply(query: string, reply: Fetch<Reply>)
      requires reply.Fetched? && reply.body.Body?
      requires |transcript| > 0 && RemoveLoading(transcript) == transcript[..|transcript| - 1]
      requires Loading !in transcript[..|transcript| - 1]
      modifies this`transcript, this`synthCalls, this`resultsTable, this`searchInfo
      ensures transcript == old(transcript[..|transcript| - 1]) + BotEntries(BotReplies(reply))
      ensures synthCalls == old(synthCalls) + BotSpeechAll(BotReplies(reply))
      ensures resultsTable == Some(RenderTable(reply.body.results))
      ensures searchInfo == if reply.body.results.Some? then
          Some(SearchInfo(query, SearchLabel(reply.body.searchType).0, SearchLabel(reply.body.searchType).1,
            |reply.body.results.value|))
        else old(searchInfo)
    {
      ShowBody(query, reply.body);
      BodyReplies(reply);
    }

    /** The loading bubble at the end goes and `text` comes in its place. */
    method ReplaceLoading(text: string)
      requires |transcript| > 0 && RemoveLoading(transcript) == transcript[..|transcript| - 1]
      requires Loading !in transcript[..|transcript| - 1]
      modifies this`transcript, this`synthCalls
      ensures transcript == old(transcript[..|transcript| - 1]) + [BotMessage(text)]
      ensures Loading !in transcript
      ensures synthCalls == old(synthCalls) + BotSpeech(text)
    {
      RemoveLoadingMessage();
      AddBotMessage(text);
    }

    /** The steps of the `try` block for a reply with an object body, message by message. */
    method ShowBody(query: string, data: Reply)
      requires data.Body?
      requires |transcript| > 0 && RemoveLoading(transcript) == transcript[..|transcript| - 1]
      requires Loading !in transcript[..|transcript| - 1]
      modifies this`transcript, this`synthCalls, this`resultsTable, this`searchInfo
      ensures transcript == old(transcript[..|transcript| - 1]) + [BotMessage(ServerMessage(data.message))]
        + (if data.results.None? then [BotMessage(SearchFailed)] else [])
      ensures synthCalls == old(synthCalls) + BotSpeech(ServerMessage(data.message))
        + (if data.results.None? then BotSpeech(SearchFailed) else [])
      ensures resultsTable == Some(RenderTable(data.results))
      ensures searchInfo == if data.results.Some? then
          Some(SearchInfo(query, SearchLabel(data.searchType).0, SearchLabel(data.searchType).1, |data.results.value|))
        else old(searchInfo)
    {
      var botMessage := ServerMessage(data.message);
      ReplaceLoading(botMessage);
      DisplayResults(data.results);
      if data.results.None? {
        ReadFailed();
      } else {
        UpdateSearchInfo(query, data.searchType, |data.results.value|);
      }
    }

    /** Reading `data.results.length` threw: the `catch` block removes the (absent) loading
        bubble and adds the error message. */
    method ReadFailed()
      requires Loading !in transcript
      modifies this`transcript, this`synthCalls
      ensures transcript == old(transcript) + [BotMessage(SearchFailed)]
      ensures synthCalls == old(synthCalls) + BotSpeech(SearchFailed)
    {
      RemoveLoadingMessage();
      AddBotMessage(SearchFailed);
    }

    // -------------------------------------------------------------------------
    // Suggestions

    /** loadSuggestions: a usable reply replaces the list (`data.suggestions || []`); a
        failed one leaves it. The cursor is not reset. */
    method LoadSuggestions(reply: SuggestionsReply)
      requires Valid()
      modifies this`suggestions
      ensures Valid()
      ensures suggestions == match reply
        case SuggestionsList(list) => list
        case NoSuggestionsField => []
        case SuggestionsUnavailable => old(suggestions)
    {
      match reply
      case SuggestionsList(list) => suggestions := list;
      case NoSuggestionsField => suggestions := [];
      case SuggestionsUnavailable =>
    }

    /** navigateSuggestions: with suggestions, the arrow moves the cursor cyclically and the
        input shows the selected suggestion without its label. */
    method NavigateSuggestions(isDown: bool)
      requires Valid()
      modifies this`suggestionIndex, this`input
      ensures Valid()
      ensures suggestions == [] ==> suggestionIndex == old(suggestionIndex) && input == old(input)
      ensures suggestions != [] ==>
        && suggestionIndex == NextIndex(old(suggestionIndex), |suggestions|, isDown)
        && 0 <= suggestionIndex < |suggestions|
        && input == StripSuggestion(suggestions[suggestionIndex])
    {
      if |suggestions| == 0 {
        return;
      }
      NextIndexInRange(suggestionIndex, |suggestions|, isDown);
      // `suggestionIndex >= 0` always holds here, so the input is always updated
      var next := NextIndex(suggestionIndex, |suggestions|, isDown);
      var text := StripSuggestion(suggestions[next]);
      suggestionIndex := next;
      input := text;
    }

    /** The Tab key: a selected, existing, non-empty suggestion goes into the input without
        its label and the cursor is reset; otherwise nothing changes. */
    method KeyTab()
      requires Valid()
      modifies this`input, this`suggestionIndex
      ensures Valid()
      ensures var i := old(suggestionIndex);
        if 0 <= i < |suggestions| && suggestions[i] != "" then
          input == StripSuggestion(suggestions[i]) && suggestionIndex == -1
        else
          input == old(input) && suggestionIndex == i
    {
      if suggestionIndex >= 0 && suggestionIndex < |suggestions| && suggestions[suggestionIndex] != "" {
        input := StripSuggestion(suggestions[suggestionIndex]);
        suggestionIndex := -1;
      }
    }

    /** showSuggestions: the first five suggestions as a bulleted bot message. */
    method ShowSuggestions()
      modifies this`transcript, this`synthCalls
      ensures suggestions == [] ==> transcript == old(transcript) && synthCalls == old(synthCalls)
      ensures suggestions != [] ==>
        var text := SuggestionsIntro + Join(suggestions[..Min(5, |suggestions|)], "\n• ");
        transcript == old(transcript) + [BotMessage(text)] && synthCalls == old(synthCalls) + BotSpeech(text)
    {
      if |suggestions| > 0 {
        var suggestionsText := Join(suggestions[..Min(5, |suggestions|)], "\n• ");
        AddBotMessage(SuggestionsIntro + suggestionsText);
      }
    }

    // -------------------------------------------------------------------------
    // Preferences

    /** toggleVoiceOutput: flips the voice, stores the new setting, and either announces
        it or silences what is playing. */
    method ToggleVoiceOutput()
      modifies this`voiceOutputEnabled, this`storage, this`synthCalls
      ensures voiceOutputEnabled == !old(voiceOutputEnabled)
      ensures storage == old(storage)["voiceOutput" := VoiceOutputValue(voiceOutputEnabled)]
      ensures VoiceOutputPreference(storage) == voiceOutputEnabled
      ensures DarkThemePreference(storage) == DarkThemePreference(old(storage))
      ensures voiceOutputEnabled ==> synthCalls == old(synthCalls) + SpeechFor(VoiceOnText)
      ensures !voiceOutputEnabled ==>
        synthCalls == old(synthCalls) + (if synthesisAvailable && isSpeaking then [Cancel] else [])
    {
      voiceOutputEnabled := !voiceOutputEnabled;
      PreferencesRoundTrip(storage, voiceOutputEnabled, darkTheme);
      if voiceOutputEnabled {
        storage := storage["voiceOutput" := "enabled"];
        SpeakText(VoiceOnText);
      } else {
        storage := storage["voiceOutput" := "disabled"];
        if synthesisAvailable && isSpeaking {
          synthCalls := synthCalls + [Cancel];
        }
      }
    }

    /** toggleTheme: flips the theme, stores it, and says so. */
    method ToggleTheme()
      modifies this`darkTheme, this`storage, this`transcript, this`synthCalls
      ensures darkTheme == !old(darkTheme)
      ensures storage == old(storage)["theme" := ThemeValue(darkTheme)]
      ensures DarkThemePreference(storage) == darkTheme
      ensures VoiceOutputPreference(storage) == VoiceOutputPreference(old(storage))
      ensures var text := if darkTheme then DarkOnText else LightOnText;
        transcript == old(transcript) + [BotMessage(text)] && synthCalls == old(synthCalls) + BotSpeech(text)
    {
      darkTheme := !darkTheme;
      PreferencesRoundTrip(storage, voiceOutputEnabled, darkTheme);
      if darkTheme {
        storage := storage["theme" := "dark"];
        AddBotMessage(DarkOnText);
      } else {
        storage := storage["theme" := "light"];
        AddBotMessage(LightOnText);
      }
    }

    /** loadSavedPreferences: a stored dark theme is applied (a stored light one does not
        undo a dark page), and the voice follows the stored setting. */
    method LoadSavedPreferences()
      modifies this`darkTheme, this`voiceOutputEnabled
      ensures darkTheme == (old(darkTheme) || DarkThemePreference(storage))
      ensures voiceOutputEnabled == VoiceOutputPreference(storage)
    {
      var savedTheme := ReadPreference(storage, "theme", "light");
      var savedVoiceOutput := ReadPreference(storage, "voiceOutput", "disabled");
      if savedTheme == "dark" {
        darkTheme := true;
      }
      voiceOutputEnabled := savedVoiceOutput == "enabled";
    }

    /** speechSynthesis.onvoiceschanged: picks the voice, then reloads the preferences. */
    method OnVoicesChanged(voices: seq<Voice>)
      requires synthesisAvailable
      modifies this`currentVoice, this`darkTheme, this`voiceOutputEnabled
      ensures currentVoice == PreferredVoice(voices)
      ensures darkTheme == (old(darkTheme) || DarkThemePreference(storage))
      ensures voiceOutputEnabled == VoiceOutputPreference(storage)
    {
      currentVoice := PreferredVoice(voices);
      LoadSavedPreferences();
    }

    // -------------------------------------------------------------------------
    // Speech recognition

    /** recognition.onresult: a final transcript wins over an interim one; a final one
        fills the input, is echoed, and asks for the search to be sent (`submit`), an
        interim one only fills the input. */
    method OnResult(results: seq<SpeechResult>, resultIndex: nat) returns (submit: bool)
      modifies this`input, this`transcript, this`synthCalls
      ensures var final, interim := FinalText(FromIndex(results, resultIndex)), InterimText(FromIndex(results, resultIndex));
        && (submit <==> final != "")
        && (final != "" ==>
              input == final && transcript == old(transcript) + [BotMessage(HeardMessage(final))]
              && synthCalls == old(synthCalls) + BotSpeech(HeardMessage(final)))
        && (final == "" ==>
              input == (if interim != "" then interim else old(input))
              && transcript == old(transcript) && synthCalls == old(synthCalls))
    {
      var finalTranscript, interimTranscript := AccumulateTranscripts(results, resultIndex);
      if finalTranscript != "" {
        input := finalTranscript;
        AddBotMessage(HeardMessage(finalTranscript));
        submit := true;
      } else {
        if interimTranscript != "" {
          input := interimTranscript;
        }
        submit := false;
      }
    }

    /** recognition.onerror: explains the error and stops listening. */
    method OnRecognitionError(error: string)
      modifies this`transcript, this`synthCalls, this`isListening
      ensures transcript == old(transcript) + [BotMessage(RecognitionErrorMessage(error))]
      ensures synthCalls == old(synthCalls) + BotSpeech(RecognitionErrorMessage(error))
      ensures !isListening
    {
      AddBotMessage(RecognitionErrorMessage(error));
      isListening := false;
    }
  }

  /** The voice gate of a bot message: it is read aloud exactly when the engine exists,
      the voice is on, nothing is playing and it is shorter than 500 code units. */
  lemma SpeechGate(page: ChatPage, text: string)
    ensures page.BotSpeech(text) != [] <==>
      page.synthesisAvailable && page.voiceOutputEnabled && !page.isSpeaking && Utf16Length(text) < SpeakLimit
    ensures page.BotSpeech(text) != [] ==> page.BotSpeech(text) == [Cancel, Speak(text, page.currentVoice)]
  {
  }
}
