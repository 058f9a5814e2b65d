/**
 * The `Shocker` cog: the whitelist and trigger-word gate on every message, the
 * validation of shock parameters, the guarded call to the shock device, the
 * word-list commands and the credential commands.
 *
 * Every reply the cog sends, every device call it makes and every exception
 * that escapes a command is recorded, in order, in the cog's `trace`.
 */
module ShockCog {
  import opened Wrappers
  import opened PyText
  import opened Store
  import opened Replies

  datatype Event =
    | Reply(text: string)                                          // ctx.channel.send(text)
    | DeviceShock(code: string, duration: int, intensity: int)     // shock_api.shocker(code).shock(...)
    | CommandFailed(error: string)                                 // an exception left the command

  /** What the device library does with one shock request. */
  datatype DeviceOutcome = Delivered | Fault(cause: string)

  /** One state change of the word list file and the one event it produces. */
  datatype Step = Step(file: FileState, event: Event)

  // ---------------------------------------------------------------------------
  // Reply texts

  const NotInitialised := ErrorReply("Shocker API not initialized!")
  const IntensityError := ErrorReply("Intensity must be between 1 and 100.")
  const CodeNotSet := ErrorReply("Shocker code is not set!")
  const FormatError := ErrorReply("Invalid message format! Expected format: (word) (shock value) (duration) ex. shock 10 5")
  const RangeError := ErrorReply("Invalid format. Ensure shock (1-100) and duration (1-15).")
  const CredentialsSaved := Block("Shocker API key and code set successfully!")
  const CredentialsMissingCause :=
    "API key, code, or username not set! Set them with `>set <Apikey> <Code>` and or `>setusername <username>"
  const CredentialsMissing := ErrorReply(CredentialsMissingCause)
  /** `str(KeyError("words"))` */
  const MissingWordsKey := "'words'"

  function ShockSent(duration: int, intensity: int): string {
    Block("Shock sent with duration: " + IntToString(duration) + "s and intensity: " + IntToString(intensity))
  }

  function AlreadyListed(word: string): string {
    Block("Word `" + word + "` is already in the list.")
  }

  function Added(word: string): string {
    Block("Word `" + word + "` has been added!")
  }

  function NotListed(word: string): string {
    ErrorReply("Word `" + word + "` is not in the list.")
  }

  function Removed(word: string): string {
    Block("Word `" + word + "` has been removed!")
  }

  function UsernameSaved(name: string): string {
    Block("Username `" + name + "` set successfully!")
  }

  function CredentialsReport(apikey: string, code: string, username: string): string {
    Block("API Key: " + apikey + "\nCode: " + code + "\nUsername: " + username)
  }

  // ---------------------------------------------------------------------------
  // Environment

  /** `os.getenv(key)` */
  function Getenv(env: map<string, string>, key: string): (r: Option<string>)
    ensures r.Some? <==> key in env
    ensures r.Some? ==> r.value == env[key]
  {
    if key in env then Some(env[key]) else None
  }

  /** Python's truth value of an optional string: present and non-empty. */
  predicate IsSet(v: Option<string>) {
    v.Some? && v.value != ""
  }

  /**
   * The `shocker` command's reply: all three configured values when all three
   * are set, and one fixed error otherwise.
   */
  function ShockerReport(env: map<string, string>): (r: string)
    ensures
      var apikey, code, username := Getenv(env, "SHOCKER_APIKEY"), Getenv(env, "SHOCKER_CODE"), Getenv(env, "SHOCKER_USERNAME");
      && (r == CredentialsMissing <==> !(IsSet(apikey) && IsSet(code) && IsSet(username)))
      && (r != CredentialsMissing ==> r == CredentialsReport(apikey.value, code.value, username.value))
  {
    var apikey, code, username := Getenv(env, "SHOCKER_APIKEY"), Getenv(env, "SHOCKER_CODE"), Getenv(env, "SHOCKER_USERNAME");
    if !(IsSet(apikey) && IsSet(code) && IsSet(username)) then CredentialsMissing
    else
      var body := "API Key: " + apikey.value + "\nCode: " + code.value + "\nUsername: " + username.value;
      BlockStartsWith(body);
      BlockStartsWith("Error: " + CredentialsMissingCause);
      assert CredentialsReport(apikey.value, code.value, username.value) == Block(body) && body[0] == 'A';
      CredentialsReport(apikey.value, code.value, username.value)
  }

  /**
   * With any of the three values unset, the reply does not depend on the
   * environment at all: nothing of a partial configuration is shown.
   */
  lemma ShockerReportShowsAllOrNothing(env1: map<string, string>, env2: map<string, string>)
    requires !(IsSet(Getenv(env1, "SHOCKER_APIKEY")) && IsSet(Getenv(env1, "SHOCKER_CODE")) && IsSet(Getenv(env1, "SHOCKER_USERNAME")))
    requires !(IsSet(Getenv(env2, "SHOCKER_APIKEY")) && IsSet(Getenv(env2, "SHOCKER_CODE")) && IsSet(Getenv(env2, "SHOCKER_USERNAME")))
    ensures ShockerReport(env1) == ShockerReport(env2) == CredentialsMissing
  {
  }

  // ---------------------------------------------------------------------------
  // The message gate

  /** The ids `on_message` accepts: `data.get("whitelist", []) if data else []`. */
  function WhitelistOf(f: FileState): (ids: seq<int>)
    ensures !f.Parsed? ==> ids == []
  {
    match LoadJson(f)
    case Some(d) => if Truthy(d) then d.whitelist.GetOr([]) else []
    case None => []
  }

  /**
   * The words `on_message` matches against: `None` when `if not wordlist: return`
   * leaves early, otherwise `wordlist.get("words", [])`.
   */
  function TriggerWords(f: FileState): (r: Option<seq<string>>)
    ensures r.Some? <==> f.Parsed? && Truthy(f.doc)
    ensures r.Some? && f.doc.words.Some? ==> r.value == f.doc.words.value
    ensures r.Some? && f.doc.words.None? ==> r.value == []
  {
    match LoadJson(f)
    case Some(d) => if Truthy(d) then Some(d.words.GetOr([])) else None
    case None => None
  }

  /** Some word of `words` occurs in the lower-cased message. The words themselves are not lower-cased. */
  predicate AnyWordIn(words: seq<string>, content: string)
    // `any` over no words is false; the empty word occurs in every message
    ensures words == [] ==> !AnyWordIn(words, content)
    ensures "" in words ==> AnyWordIn(words, content)
  {
    exists w :: w in words && Contains(Lower(content), w)
  }

  /** `on_message` goes on to `shock_message`: the sender is whitelisted and a listed word occurs in the message. */
  predicate Triggered(whitelistFile: FileState, wordlistFile: FileState, authorId: int, content: string)
    // both files must load, and a word list without any words never fires
    ensures Triggered(whitelistFile, wordlistFile, authorId, content) ==>
      whitelistFile.Parsed? && wordlistFile.Parsed? && wordlistFile.doc.words.Some? && wordlistFile.doc.words.value != []
  {
    && authorId in WhitelistOf(whitelistFile)
    && TriggerWords(wordlistFile).Some?
    && AnyWordIn(TriggerWords(wordlistFile).value, content)
  }

  /** The gate is fail-closed: a sender who is not whitelisted never gets past it. */
  lemma NotWhitelistedNeverTriggers(whitelistFile: FileState, wordlistFile: FileState, authorId: int, content: string)
    requires authorId !in WhitelistOf(whitelistFile)
    ensures !Triggered(whitelistFile, wordlistFile, authorId, content)
  {
  }

  /** A missing or malformed whitelist file rejects every sender. */
  lemma UnreadableWhitelistRejectsAll(whitelistFile: FileState, wordlistFile: FileState, authorId: int, content: string)
    requires whitelistFile == Missing || whitelistFile == Malformed
    ensures !Triggered(whitelistFile, wordlistFile, authorId, content)
  {
  }

  /** A missing, malformed or empty word list, or one without words, triggers on nothing. */
  lemma NoWordsNeverTriggers(whitelistFile: FileState, wordlistFile: FileState, authorId: int, content: string)
    requires TriggerWords(wordlistFile).None? || TriggerWords(wordlistFile) == Some([])
    ensures !Triggered(whitelistFile, wordlistFile, authorId, content)
  {
  }

  /**
   * A whitelisted sender triggers exactly when some listed word is a substring
   * of the lower-cased message (both directions).
   */
  lemma TriggerIffWordOccurs(whitelistFile: FileState, wordlistFile: FileState, authorId: int, content: string)
    requires authorId in WhitelistOf(whitelistFile)
    requires TriggerWords(wordlistFile).Some?
    ensures Triggered(whitelistFile, wordlistFile, authorId, content)
        <==> exists k :: 0 <= k < |TriggerWords(wordlistFile).value|
                         && Contains(Lower(content), TriggerWords(wordlistFile).value[k])
  {
    var words := TriggerWords(wordlistFile).value;
    if Triggered(whitelistFile, wordlistFile, authorId, content) {
      var w :| w in words && Contains(Lower(content), w);
      var k :| 0 <= k < |words| && words[k] == w;
    }
  }

  /** A listed word with an upper-case letter can never match, since only the message is lower-cased. */
  lemma {:induction false} UpperCaseWordNeverMatches(word: string, content: string)
    requires exists j :: 0 <= j < |word| && IsUpper(word[j])
    ensures !Contains(Lower(content), word)
  {
    var j :| 0 <= j < |word| && IsUpper(word[j]);
    var low := Lower(content);
    LowerHasNoUpper(content);
    forall i | 0 <= i <= |low| - |word|
      ensures !OccursAt(low, word, i)
    {
      assert !IsUpper(low[i + j]);
    }
  }

  /** An empty string in the word list matches every message of a whitelisted sender. */
  lemma EmptyWordMatchesEverything(whitelistFile: FileState, wordlistFile: FileState, authorId: int, content: string)
    requires authorId in WhitelistOf(whitelistFile)
    requires TriggerWords(wordlistFile).Some? && "" in TriggerWords(wordlistFile).value
    ensures Triggered(whitelistFile, wordlistFile, authorId, content)
  {
    assert OccursAt(Lower(content), "", 0);
  }

  // ---------------------------------------------------------------------------
  // Shock parameters and the device call

  /** A validated shock request: an intensity in [1, 100] and a duration in [1, 15] seconds. */
  datatype ShockRequest = ShockRequest(intensity: int, duration: int)

  /**
   * `int(message[1]), int(message[2])` and the range check: the request when both
   * tokens are integers in range, `None` (the `ValueError` branch) otherwise.
   */
  function ParseShockRequest(shockToken: string, durationToken: string): (r: Option<ShockRequest>)
    ensures r.Some? <==>
      && ParseInt(shockToken).Some? && 1 <= ParseInt(shockToken).value <= 100
      && ParseInt(durationToken).Some? && 1 <= ParseInt(durationToken).value <= 15
    ensures r.Some? ==> r.value == ShockRequest(ParseInt(shockToken).value, ParseInt(durationToken).value)
  {
    match (ParseInt(shockToken), ParseInt(durationToken))
    case (Some(s), Some(d)) =>
      if 1 <= s <= 100 && 1 <= d <= 15 then Some(ShockRequest(s, d)) else None
    case _ => None
  }

  /** The events from one call `send_shock(duration, intensity)`. */
  function SendShockEvents(apiInitialised: bool, code: Option<string>, duration: int, intensity: int, outcome: DeviceOutcome): (r: seq<Event>)
    // the device is called exactly when the API is up, the intensity is in range and the code is set
    ensures (exists k :: 0 <= k < |r| && r[k].DeviceShock?) <==> apiInitialised && 1 <= intensity <= 100 && IsSet(code)
    // at most one call, first, with the arguments as given: the duration is passed on unchecked
    ensures forall k :: 0 <= k < |r| && r[k].DeviceShock? ==> k == 0 && r[k] == DeviceShock(code.value, duration, intensity)
    // every path ends in a reply
    ensures |r| > 0 && r[|r| - 1].Reply?
    // the two guards, each with its own error and nothing else
    ensures !apiInitialised ==> r == [Reply(NotInitialised)]
    ensures apiInitialised && !(1 <= intensity <= 100) ==> r == [Reply(IntensityError)]
    // a delivered shock is confirmed with its duration and intensity
    ensures apiInitialised && 1 <= intensity <= 100 && IsSet(code) && outcome.Delivered? ==>
      r == [DeviceShock(code.value, duration, intensity), Reply(ShockSent(duration, intensity))]
  {
    if !apiInitialised then [Reply(NotInitialised)]
    else if !(1 <= intensity <= 100) then [Reply(IntensityError)]
    else if IsSet(code) then
      var report := match outcome
        case Delivered => Reply(ShockSent(duration, intensity))
        case Fault(cause) => Reply(ErrorReply(cause));
      var r := [DeviceShock(code.value, duration, intensity), report];
      assert r[0].DeviceShock?;
      r
    else [Reply(CodeNotSet), Reply(ShockSent(duration, intensity))]
  }

  /** `test 20 50`: a duration above 15 still reaches the device. */
  lemma DurationIsNotChecked(code: string, duration: int, intensity: int, outcome: DeviceOutcome)
    requires code != "" && 1 <= intensity <= 100
    ensures SendShockEvents(true, Some(code), duration, intensity, outcome)[0] == DeviceShock(code, duration, intensity)
  {
  }

  /** Without the code the error is followed by the success line, and no device call is made. */
  lemma UnsetCodeStillReportsSent(code: Option<string>, duration: int, intensity: int, outcome: DeviceOutcome)
    requires !IsSet(code) && 1 <= intensity <= 100
    ensures SendShockEvents(true, code, duration, intensity, outcome) == [Reply(CodeNotSet), Reply(ShockSent(duration, intensity))]
  {
  }

  /** A device fault gives exactly one `Error: <cause>` reply after the single attempt: no retry. */
  lemma FaultIsReportedOnce(code: string, duration: int, intensity: int, cause: string)
    requires code != "" && 1 <= intensity <= 100
    ensures SendShockEvents(true, Some(code), duration, intensity, Fault(cause))
         == [DeviceShock(code, duration, intensity), Reply(ErrorReply(cause))]
  {
  }

  /** `wordlist and ...`: the word list file loads as a non-empty object. */
  predicate LoadsNonEmpty(f: FileState) {
    LoadJson(f).Some? && Truthy(LoadJson(f).value)
  }

  /**
   * The events of `shock_message` on the whitespace tokens of a message. It reloads
   * the word list first and returns at once when that is a non-empty object,
   * because `[0] not in words` holds for a list of strings.
   */
  function ShockMessageEvents(wordlistFile: FileState, apiInitialised: bool, code: Option<string>,
                              tokens: seq<string>, outcome: DeviceOutcome): (r: seq<Event>)
    ensures LoadJson(wordlistFile).Some? && Truthy(LoadJson(wordlistFile).value) ==> r == []
    // the device is reached only with both tokens parsed and in range, called as (duration, shock)
    ensures forall k :: 0 <= k < |r| && r[k].DeviceShock? ==>
      && |tokens| >= 3
      && ParseShockRequest(tokens[1], tokens[2]) == Some(ShockRequest(r[k].intensity, r[k].duration))
      && 1 <= r[k].intensity <= 100 && 1 <= r[k].duration <= 15
    // past that first return: the format error, the range error, or `send_shock` as (duration, shock)
    ensures !LoadsNonEmpty(wordlistFile) && |tokens| < 3 ==> r == [Reply(FormatError)]
    ensures !LoadsNonEmpty(wordlistFile) && |tokens| >= 3 && ParseShockRequest(tokens[1], tokens[2]).None? ==>
      r == [Reply(RangeError)]
    ensures !LoadsNonEmpty(wordlistFile) && |tokens| >= 3 && ParseShockRequest(tokens[1], tokens[2]).Some? ==>
      var req := ParseShockRequest(tokens[1], tokens[2]).value;
      r == SendShockEvents(apiInitialised, code, req.duration, req.intensity, outcome)
  {
    var wordlist := LoadJson(wordlistFile);
    if wordlist.Some? && Truthy(wordlist.value) then []
    else if |tokens| < 3 then [Reply(FormatError)]
    else
      match ParseShockRequest(tokens[1], tokens[2])
      case None => [Reply(RangeError)]
      case Some(req) => SendShockEvents(apiInitialised, code, req.duration, req.intensity, outcome)
  }

  /** A value out of range or not an integer gives the range error and no device call. */
  lemma InvalidParametersAreRejected(wordlistFile: FileState, apiInitialised: bool, code: Option<string>,
                                     tokens: seq<string>, outcome: DeviceOutcome)
    requires !(LoadJson(wordlistFile).Some? && Truthy(LoadJson(wordlistFile).value))
    requires |tokens| >= 3 && ParseShockRequest(tokens[1], tokens[2]).None?
    ensures ShockMessageEvents(wordlistFile, apiInitialised, code, tokens, outcome) == [Reply(RangeError)]
  {
  }

  /** The events of `on_message`: `shock_message` on the message's tokens when the gate lets it through. */
  function OnMessageEvents(whitelistFile: FileState, wordlistFile: FileState, apiInitialised: bool, code: Option<string>,
                           authorId: int, content: string, outcome: DeviceOutcome): (r: seq<Event>)
    ensures !Triggered(whitelistFile, wordlistFile, authorId, content) ==> r == []
  {
    if Triggered(whitelistFile, wordlistFile, authorId, content) then
      ShockMessageEvents(wordlistFile, apiInitialised, code, SplitWs(content), outcome)
    else []
  }

  /**
   * The trigger path never gets as far as validating: getting past the gate
   * needs a non-empty word list object, and on that same file `shock_message`
   * returns at once. No message ever produces a reply or a device call.
   */
  lemma OnMessageNeverActs(whitelistFile: FileState, wordlistFile: FileState, apiInitialised: bool, code: Option<string>,
                           authorId: int, content: string, outcome: DeviceOutcome)
    ensures OnMessageEvents(whitelistFile, wordlistFile, apiInitialised, code, authorId, content, outcome) == []
  {
  }

  // ---------------------------------------------------------------------------
  // The word list commands

  /** `load_json(WORDLIST_FILE) or {"words": []}`: the object `add` and `remove_word` edit. */
  function EditableDoc(f: FileState): (d: Doc)
    ensures Truthy(d)
  {
    match LoadJson(f)
    case Some(d) => if Truthy(d) then d else Doc(None, Some([]), false)
    case None => Doc(None, Some([]), false)
  }

  /** The list `wordlist["words"]` that `add` and `remove_word` see; `None` when that lookup raises `KeyError`. */
  function EditableWords(f: FileState): Option<seq<string>> {
    EditableDoc(f).words
  }

  predicate NoDuplicates(ws: seq<string>) {
    forall i, j :: 0 <= i < j < |ws| ==> ws[i] != ws[j]
  }

  /** `list.remove(word)`: the list without the first occurrence of `word`. */
  function RemoveFirst(ws: seq<string>, word: string): (r: seq<string>)
    requires word in ws
    ensures |r| == |ws| - 1
    ensures multiset(r) == multiset(ws) - multiset{word}
  {
    assert ws == [ws[0]] + ws[1..];
    if ws[0] == word then ws[1..]
    else
      [ws[0]] + RemoveFirst(ws[1..], word)
  }

  /** The occurrence `remove` takes out is the first one, and the other words keep their order. */
  lemma {:induction false} RemoveFirstIsFirstOccurrence(ws: seq<string>, word: string)
    requires word in ws
    ensures exists i :: FirstRemoved(ws, word, i)
  {
    if ws[0] == word {
      assert ws[..0] + ws[1..] == ws[1..];
      assert FirstRemoved(ws, word, 0);
    } else {
      var tail := ws[1..];
      assert word in tail by {
        var k :| 0 <= k < |ws| && ws[k] == word;
        assert tail[k - 1] == word;
      }
      RemoveFirstIsFirstOccurrence(tail, word);
      var i :| FirstRemoved(tail, word, i);
      FirstRemovedCons(ws, word, i);
    }
  }

  /** `RemoveFirst(ws, word)` takes out the occurrence at `i`, and it is the first. */
  predicate FirstRemoved(ws: seq<string>, word: string, i: int)
    requires word in ws
  {
    && 0 <= i < |ws| && ws[i] == word && (forall j :: 0 <= j < i ==> ws[j] != word)
    && RemoveFirst(ws, word) == ws[..i] + ws[i + 1..]
  }

  lemma FirstRemovedCons(ws: seq<string>, word: string, i: int)
    requires |ws| > 0 && ws[0] != word && word in ws[1..]
    requires FirstRemoved(ws[1..], word, i)
    ensures FirstRemoved(ws, word, i + 1)
  {
    var tail := ws[1..];
    var rest := RemoveFirst(tail, word);
    assert RemoveFirst(ws, word) == [ws[0]] + rest;
    assert rest == tail[..i] + tail[i + 1..];
    ConsSplit(ws, i);
    forall j | 0 <= j < i + 1
      ensures ws[j] != word
    {
      if j > 0 {
        assert ws[j] == tail[j - 1];
      }
    }
  }

  /** Cutting position `i + 1` out of a non-empty sequence is cutting `i` out of its tail. */
  lemma ConsSplit<T>(s: seq<T>, i: int)
    requires 0 <= i < |s| - 1
    ensures [s[0]] + (s[1..][..i] + s[1..][i + 1..]) == s[..i + 1] + s[i + 2..]
  {
    assert s[..i + 1] == [s[0]] + s[1..][..i];
    assert s[i + 2..] == s[1..][i + 1..];
  }

  lemma NoDuplicatesCounts(ws: seq<string>)
    ensures NoDuplicates(ws) <==> forall w :: multiset(ws)[w] <= 1
  {
    if NoDuplicates(ws) {
      forall w ensures multiset(ws)[w] <= 1 {
        NoDuplicatesCount(ws, w);
      }
    } else {
      var i, j :| 0 <= i < j < |ws| && ws[i] == ws[j];
      assert ws == ws[..j] + [ws[j]] + ws[j + 1..];
      assert ws[..j][i] == ws[j];
      assert multiset(ws[..j])[ws[j]] >= 1;
      assert multiset(ws)[ws[j]] >= 2;
    }
  }

  lemma {:induction false} NoDuplicatesCount(ws: seq<string>, w: string)
    requires NoDuplicates(ws)
    ensures multiset(ws)[w] <= 1
  {
    if ws != [] {
      assert ws == [ws[0]] + ws[1..];
      NoDuplicatesCount(ws[1..], w);
      if ws[0] == w {
        assert w !in ws[1..];
      }
    }
  }

  /** The events and the new word list file of `add <word>`. */
  function AddWordStep(f: FileState, word: string): (s: Step)
    ensures EditableWords(f).None? ==> s == Step(f, CommandFailed(MissingWordsKey))
    ensures s.file != f ==> s.event == Reply(Added(word)) && EditableWords(s.file).Some? && word in EditableWords(s.file).value
    // a listed word is reported and nothing is written
    ensures EditableWords(f).Some? && word in EditableWords(f).value ==> s == Step(f, Reply(AlreadyListed(word)))
    // an absent word is appended at the end; the other words and keys are kept
    ensures EditableWords(f).Some? && word !in EditableWords(f).value ==>
      s == Step(Parsed(EditableDoc(f).(words := Some(EditableWords(f).value + [word]))), Reply(Added(word)))
    ensures EditableWords(f).Some? ==> EditableWords(s.file).Some? && word in EditableWords(s.file).value
    // the list stays free of duplicates
    ensures EditableWords(f).Some? && NoDuplicates(EditableWords(f).value) ==> NoDuplicates(EditableWords(s.file).value)
  {
    var d := EditableDoc(f);
    match d.words
    case None => Step(f, CommandFailed(MissingWordsKey))
    case Some(ws) =>
      if word in ws then Step(f, Reply(AlreadyListed(word)))
      else Step(Parsed(d.(words := Some(ws + [word]))), Reply(Added(word)))
  }

  /** The events and the new word list file of `remove_word <word>`. */
  function RemoveWordStep(f: FileState, word: string): (s: Step)
    ensures EditableWords(f).None? ==> s == Step(f, CommandFailed(MissingWordsKey))
    ensures EditableWords(f).Some? && word !in EditableWords(f).value ==> s == Step(f, Reply(NotListed(word)))
    ensures s.file != f ==> s.event == Reply(Removed(word))
    // a listed word loses its first occurrence; the other words and keys are kept
    ensures EditableWords(f).Some? && word in EditableWords(f).value ==>
      s == Step(Parsed(EditableDoc(f).(words := Some(RemoveFirst(EditableWords(f).value, word)))), Reply(Removed(word)))
    // the list stays free of duplicates, and then the word is gone from it
    ensures EditableWords(f).Some? ==> EditableWords(s.file).Some?
    ensures EditableWords(f).Some? && NoDuplicates(EditableWords(f).value) ==>
      NoDuplicates(EditableWords(s.file).value) && word !in EditableWords(s.file).value
  {
    var d := EditableDoc(f);
    match d.words
    case None => Step(f, CommandFailed(MissingWordsKey))
    case Some(ws) =>
      if word !in ws then Step(f, Reply(NotListed(word)))
      else
        var r := RemoveFirst(ws, word);
        RemoveKeepsNoDuplicates(ws, word);
        Step(Parsed(d.(words := Some(r))), Reply(Removed(word)))
  }

  lemma RemoveKeepsNoDuplicates(ws: seq<string>, word: string)
    requires word in ws
    ensures NoDuplicates(ws) ==> NoDuplicates(RemoveFirst(ws, word)) && word !in RemoveFirst(ws, word)
  {
    if NoDuplicates(ws) {
      var r := RemoveFirst(ws, word);
      NoDuplicatesCounts(ws);
      NoDuplicatesCounts(r);
      assert multiset(ws)[word] == 1;
      assert multiset(r)[word] == 0;
    }
  }

  /** Removing the word just appended at the end gives back the list before. */
  lemma {:induction false} RemoveAppended(ws: seq<string>, word: string)
    requires word !in ws
    ensures RemoveFirst(ws + [word], word) == ws
  {
    if ws != [] {
      assert (ws + [word])[1..] == ws[1..] + [word];
      RemoveAppended(ws[1..], word);
      assert [ws[0]] + ws[1..] == ws;
    }
  }

  /** `add` of a listed word reports it and writes nothing. */
  lemma AddListedWord(f: FileState, word: string)
    requires EditableWords(f).Some? && word in EditableWords(f).value
    ensures AddWordStep(f, word) == Step(f, Reply(AlreadyListed(word)))
  {
  }

  /** `add w` twice: the second call reports the word as already listed and changes nothing. */
  lemma AddTwice(f: FileState, word: string)
    requires EditableWords(f).Some?
    ensures var once := AddWordStep(f, word);
      AddWordStep(once.file, word) == Step(once.file, Reply(AlreadyListed(word)))
  {
  }

  /**
   * `add w` of an absent word, then `remove_word w`: the list is what `add` started
   * from, and a file that held a non-empty object is restored exactly.
   */
  lemma AddThenRemove(f: FileState, word: string)
    requires EditableWords(f).Some? && word !in EditableWords(f).value
    ensures var added := AddWordStep(f, word);
      && added.event == Reply(Added(word))
      && RemoveWordStep(added.file, word) == Step(Parsed(EditableDoc(f)), Reply(Removed(word)))
      && (f.Parsed? && Truthy(f.doc) ==> RemoveWordStep(added.file, word).file == f)
  {
    var d := EditableDoc(f);
    var ws := d.words.value;
    var d1 := d.(words := Some(ws + [word]));
    assert AddWordStep(f, word) == Step(Parsed(d1), Reply(Added(word)));
    assert EditableDoc(Parsed(d1)) == d1;
    RemoveAppended(ws, word);
    assert word in ws + [word];
    assert RemoveWordStep(Parsed(d1), word) == Step(Parsed(d1.(words := Some(ws))), Reply(Removed(word)));
    assert d1.(words := Some(ws)) == d;
  }

  // ---------------------------------------------------------------------------
  // The cog

  class Shocker {
    var env: map<string, string>         // os.environ
    var envFile: seq<EnvLine>            // the lines of .env
    var whitelistFile: FileState         // whitelist.json
    var wordlistFile: FileState          // wordlist.json
    var shockerApikey: Option<string>    // read from the environment once, when the cog is built
    var shockerUsername: Option<string>
    var shockerCode: Option<string>
    var apiInitialised: bool             // shock_api is not None
    var trace: seq<Event>

    /** `Shocker(bot)`: the credentials are read from the environment; the device API is not yet set up. */
    constructor (env0: map<string, string>, envFile0: seq<EnvLine>, whitelist0: FileState, wordlist0: FileState)
      ensures env == env0 && envFile == envFile0 && whitelistFile == whitelist0 && wordlistFile == wordlist0
      ensures shockerApikey == Getenv(env0, "SHOCKER_APIKEY")
      ensures shockerUsername == Getenv(env0, "SHOCKER_USERNAME")
      ensures shockerCode == Getenv(env0, "SHOCKER_CODE")
      ensures !apiInitialised && trace == []
    {
      env, envFile, whitelistFile, wordlistFile := env0, envFile0, whitelist0, wordlist0;
      shockerApikey := Getenv(env0, "SHOCKER_APIKEY");
      shockerUsername := Getenv(env0, "SHOCKER_USERNAME");
      shockerCode := Getenv(env0, "SHOCKER_CODE");
      apiInitialised := false;
      trace := [];
    }

    /** `init_shocker`: sets up the device API only when all three credentials are set. */
    method InitShocker()
      modifies this`apiInitialised
      ensures apiInitialised == (old(apiInitialised) || (IsSet(shockerApikey) && IsSet(shockerUsername) && IsSet(shockerCode)))
    {
      if !(IsSet(shockerApikey) && IsSet(shockerUsername) && IsSet(shockerCode)) {
        return;
      }
      apiInitialised := true;
    }

    /** `on_message`: the gate, then `shock_message` on the message's tokens; `fired` tells whether it got that far. */
    method OnMessage(authorId: int, content: string, outcome: DeviceOutcome) returns (fired: bool)
      modifies this`trace
      ensures fired == Triggered(whitelistFile, wordlistFile, authorId, content)
      ensures trace == old(trace) + OnMessageEvents(whitelistFile, wordlistFile, apiInitialised, shockerCode, authorId, content, outcome)
    {
      var data := LoadJson(whitelistFile);
      var whitelist := if data.Some? && Truthy(data.value) then data.value.whitelist.GetOr([]) else [];
      if authorId !in whitelist {
        return false;
      }
      var wordlist := LoadJson(wordlistFile);
      if wordlist.None? || !Truthy(wordlist.value) {
        return false;
      }
      var words := wordlist.value.words.GetOr([]);
      fired := exists w :: w in words && Contains(Lower(content), w);
      if fired {
        ShockMessage(SplitWs(content), outcome);
      }
    }

    /** `shock_message` on the whitespace tokens of a message. */
    method ShockMessage(tokens: seq<string>, outcome: DeviceOutcome)
      modifies this`trace
      ensures trace == old(trace) + ShockMessageEvents(wordlistFile, apiInitialised, shockerCode, tokens, outcome)
    {
      var wordlist := LoadJson(wordlistFile);
      // `wordlist and [0] not in wordlist.get("words", [])`: the list [0] equals no string entry
      if wordlist.Some? && Truthy(wordlist.value) {
        return;
      }
      if |tokens| < 3 {
        trace := trace + [Reply(FormatError)];
        return;
      }
      var shockValue := ParseInt(tokens[1]);
      var duration := ParseInt(tokens[2]);
      if shockValue.None? || duration.None? || !(1 <= shockValue.value <= 100) || !(1 <= duration.value <= 15) {
        trace := trace + [Reply(RangeError)];
        return;
      }
      SendShock(duration.value, shockValue.value, outcome);
    }

    /** `send_shock(duration, intensity)` */
    method SendShock(duration: int, intensity: int, outcome: DeviceOutcome)
      modifies this`trace
      ensures trace == old(trace) + SendShockEvents(apiInitialised, shockerCode, duration, intensity, outcome)
    {
      if !apiInitialised {
        trace := trace + [Reply(NotInitialised)];
        return;
      }
      if !(1 <= intensity <= 100) {
        trace := trace + [Reply(IntensityError)];
        return;
      }
      if IsSet(shockerCode) {
        trace := trace + [DeviceShock(shockerCode.value, duration, intensity)];
        if outcome.Fault? {
          trace := trace + [Reply(ErrorReply(outcome.cause))];
          return;
        }
      } else {
        trace := trace + [Reply(CodeNotSet)];
      }
      trace := trace + [Reply(ShockSent(duration, intensity))];
    }

    /** `test <duration> <intensity>`: straight to `send_shock`, past the gate. */
    method Test(duration: int, intensity: int, outcome: DeviceOutcome)
      modifies this`trace
      ensures trace == old(trace) + SendShockEvents(apiInitialised, shockerCode, duration, intensity, outcome)
    {
      SendShock(duration, intensity, outcome);
    }

    /** `setshocker <apikey> <code>`: the environment and `.env` change; the cog's own copies and the API do not. */
    method SetShocker(apikey: string, code: string)
      modifies this`env, this`envFile, this`trace
      ensures env == old(env)["SHOCKER_APIKEY" := apikey]["SHOCKER_CODE" := code]
      ensures envFile == old(envFile) + [EnvLine("SHOCKER_APIKEY", apikey), EnvLine("SHOCKER_CODE", code)]
      ensures trace == old(trace) + [Reply(CredentialsSaved)]
      ensures shockerApikey == old(shockerApikey) && shockerCode == old(shockerCode) && apiInitialised == old(apiInitialised)
    {
      env := env["SHOCKER_APIKEY" := apikey];
      env := env["SHOCKER_CODE" := code];
      envFile := envFile + [EnvLine("SHOCKER_APIKEY", apikey), EnvLine("SHOCKER_CODE", code)];
      trace := trace + [Reply(CredentialsSaved)];
    }

    /** `username <name>`: like `setshocker`, for the account name. */
    method SetUsername(name: string)
      modifies this`env, this`envFile, this`trace
      ensures env == old(env)["SHOCKER_USERNAME" := name]
      ensures envFile == old(envFile) + [EnvLine("SHOCKER_USERNAME", name)]
      ensures trace == old(trace) + [Reply(UsernameSaved(name))]
      ensures shockerUsername == old(shockerUsername) && apiInitialised == old(apiInitialised)
    {
      env := env["SHOCKER_USERNAME" := name];
      envFile := envFile + [EnvLine("SHOCKER_USERNAME", name)];
      trace := trace + [Reply(UsernameSaved(name))];
    }

    /** `shocker`: reports the credentials as the environment holds them now. */
    method ShowShocker()
      modifies this`trace
      ensures trace == old(trace) + [Reply(ShockerReport(env))]
    {
      var apikey := Getenv(env, "SHOCKER_APIKEY");
      var code := Getenv(env, "SHOCKER_CODE");
      var username := Getenv(env, "SHOCKER_USERNAME");
      if !(IsSet(apikey) && IsSet(code) && IsSet(username)) {
        trace := trace + [Reply(CredentialsMissing)];
        return;
      }
      trace := trace + [Reply(CredentialsReport(apikey.value, code.value, username.value))];
    }

    /** `add <word>`: appends an absent word and saves the file. */
    method AddWord(word: string)
      modifies this`wordlistFile, this`trace
      ensures wordlistFile == AddWordStep(old(wordlistFile), word).file
      ensures trace == old(trace) + [AddWordStep(old(wordlistFile), word).event]
    {
      var wordlist := EditableDoc(wordlistFile);
      if wordlist.words.None? {
        trace := trace + [CommandFailed(MissingWordsKey)];
        return;
      }
      var words := wordlist.words.value;
      if word in words {
        trace := trace + [Reply(AlreadyListed(word))];
        return;
      }
      words := words + [word];
      wordlistFile := Parsed(wordlist.(words := Some(words)));
      trace := trace + [Reply(Added(word))];
    }

    /** `remove_word <word>`: removes the first occurrence of a listed word and saves the file. */
    method RemoveWord(word: string)
      modifies this`wordlistFile, this`trace
      ensures wordlistFile == RemoveWordStep(old(wordlistFile), word).file
      ensures trace == old(trace) + [RemoveWordStep(old(wordlistFile), word).event]
    {
      var wordlist := EditableDoc(wordlistFile);
      if wordlist.words.None? {
        trace := trace + [CommandFailed(MissingWordsKey)];
        return;
      }
      var words := wordlist.words.value;
      if word !in words {
        trace := trace + [Reply(NotListed(word))];
        return;
      }
      words := RemoveFirst(words, word);
      wordlistFile := Parsed(wordlist.(words := Some(words)));
      trace := trace + [Reply(Removed(word))];
    }
  }
}
