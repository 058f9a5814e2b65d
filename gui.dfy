/**
 * The settings window: the required-field check, the parsing of the two comma
 * lists when the settings are saved (and the order in which the files are
 * written), the joining of the saved lists back into the fields, the uptime
 * label and the scan of the bot's log for its login name.
 *
 * The window's fields are plain strings; the three files it writes are held
 * as state, and every message box it shows is recorded, in order, together
 * with the file writes, in `effects`.
 */
module Gui {
  import opened Wrappers
  import opened PyText
  import opened Store
  import opened ShockCog

  /** The text of the six entry fields. */
  datatype Fields = Fields(apiKey: string, username: string, shockCode: string, token: string, whitelist: string, words: string)

  const EmptyFields := Fields("", "", "", "", "", "")

  /** The two JSON files the window writes. */
  datatype JsonFile = WhitelistJson | WordlistJson

  datatype Effect =
    | WriteEnv(lines: seq<EnvLine>)          // .env rewritten
    | WriteJson(file: JsonFile, doc: Doc)     // save_json(...)
    | Info(title: string, text: string)       // messagebox.showinfo
    | ErrorBox(text: string)                  // custom_error(text)
    | SaveFailed(piece: string)               // custom_error("Failed to save settings: invalid literal for int() with base 10: " + repr(piece))

  const FillOutAll := "Please fill out all the settings."
  const SavedText := "Settings saved successfully!"

  // ---------------------------------------------------------------------------
  // check_settings

  /** `all([...])` over the four required fields. */
  function Complete(f: Fields): (ok: bool)
    ensures ok <==> f.apiKey != "" && f.username != "" && f.shockCode != "" && f.token != ""
  {
    "" !in [f.apiKey, f.username, f.shockCode, f.token]
  }

  /** The two list fields are not required: a window with only them empty is complete. */
  lemma ListsAreNotRequired(f: Fields)
    ensures Complete(f) == Complete(f.(whitelist := "", words := ""))
  {
  }

  // ---------------------------------------------------------------------------
  // The comma lists of save_settings

  /**
   * A list comprehension whose element expression may raise: the results, or
   * the error of the first piece that fails, at which the comprehension stops.
   */
  function ParseAll<T, E>(pieces: seq<string>, parse: string -> Result<T, E>): (r: Result<seq<T>, E>)
    ensures r.Ok? <==> forall k :: 0 <= k < |pieces| ==> parse(pieces[k]).Ok?
    ensures r.Ok? ==> |r.value| == |pieces| && forall k :: 0 <= k < |pieces| ==> parse(pieces[k]) == Ok(r.value[k])
  {
    if |pieces| == 0 then Ok([])
    else
      match parse(pieces[0])
      case Err(e) => Err(e)
      case Ok(v) =>
        var rest := ParseAll(pieces[1..], parse);
        assert forall k :: 1 <= k < |pieces| ==> pieces[k] == pieces[1..][k - 1];
        if rest.Err? then Err(rest.error) else Ok([v] + rest.value)
  }

  /** A failed comprehension reports the error of the first piece that fails. */
  lemma {:induction false} ParseAllFirstFailure<T, E>(pieces: seq<string>, parse: string -> Result<T, E>)
    requires ParseAll(pieces, parse).Err?
    ensures exists k :: (0 <= k < |pieces| && parse(pieces[k]) == Err(ParseAll(pieces, parse).error)
      && (forall j :: 0 <= j < k ==> parse(pieces[j]).Ok?))
  {
    if parse(pieces[0]).Ok? {
      var tail := pieces[1..];
      ParseAllFirstFailure(tail, parse);
      var k :| 0 <= k < |tail| && parse(tail[k]) == Err(ParseAll(tail, parse).error)
        && (forall j :: 0 <= j < k ==> parse(tail[j]).Ok?);
      assert tail[k] == pieces[k + 1];
      forall j | 0 <= j < k + 1
        ensures parse(pieces[j]).Ok?
      {
        if j > 0 {
          assert pieces[j] == tail[j - 1];
        }
      }
    }
  }

  /** `int(p.strip())`, or the stripped piece `int()` rejects. */
  function ParseId(p: string): (r: Result<int, string>)
    ensures r.Ok? <==> ParseInt(Strip(p)).Some?
    ensures r.Ok? ==> ParseInt(Strip(p)) == Some(r.value)
    ensures r.Err? ==> r.error == Strip(p)
  {
    var s := Strip(p);
    match ParseInt(s)
    case Some(v) => Ok(v)
    case None => Err(s)
  }

  /** The whitelist field: split on `,`, each piece stripped and parsed as an integer. */
  function ParseWhitelist(text: string): (r: Result<seq<int>, string>)
    ensures r.Ok? ==> |r.value| == |SplitOn(text, ',')| >= 1
    ensures r.Err? ==> ParseInt(r.error).None? && exists k :: 0 <= k < |SplitOn(text, ',')| && Strip(SplitOn(text, ',')[k]) == r.error
  {
    var pieces := SplitOn(text, ',');
    var r := ParseAll(pieces, ParseId);
    if r.Ok? then r
    else
      ParseAllFirstFailure(pieces, ParseId);
      r
  }

  /** `[w.strip() for w in pieces]` */
  function StripAll(pieces: seq<string>): (r: seq<string>)
    ensures |r| == |pieces| && forall k :: 0 <= k < |pieces| ==> r[k] == Strip(pieces[k])
  {
    seq(|pieces|, k requires 0 <= k < |pieces| => Strip(pieces[k]))
  }

  /** The word field: split on `,`, each piece stripped. */
  function ParseWords(text: string): (r: seq<string>)
    ensures |r| >= 1
  {
    StripAll(SplitOn(text, ','))
  }

  /** Every saved word is stripped and free of commas, so it comes back from a later join and parse. */
  lemma ParseWordsAreClean(text: string)
    ensures forall k :: 0 <= k < |ParseWords(text)| ==> ',' !in ParseWords(text)[k] && IsStripped(ParseWords(text)[k])
  {
    var pieces := SplitOn(text, ',');
    var r := ParseWords(text);
    forall k | 0 <= k < |r|
      ensures ',' !in r[k] && IsStripped(r[k])
    {
      StripKeepsOut(pieces[k], ',');
    }
  }

  /** Stripping only removes characters: one absent before is absent after. */
  lemma StripKeepsOut(s: string, c: char)
    requires c !in s
    ensures c !in Strip(s)
  {
    var l := StripLeading(s);
    StripLeadingIsSuffix(s);
    assert forall i :: 0 <= i < |l| ==> l[i] == s[|s| - |l| + i];
    var t := StripTrailing(l);
    StripTrailingIsPrefix(l);
    assert forall i :: 0 <= i < |t| ==> t[i] == l[i];
  }

  /** An empty whitelist field splits to one empty piece, which is not an integer: the save fails. */
  lemma EmptyWhitelistFails()
    ensures ParseWhitelist("") == Err("")
  {
    SplitOnEmpty(',');
    assert Strip("") == "";
  }

  /** An empty word field gives a list holding one empty word. */
  lemma EmptyWordsGiveOneEmptyWord()
    ensures ParseWords("") == [""]
  {
    SplitOnEmpty(',');
  }

  // ---------------------------------------------------------------------------
  // The joins of autofill_settings

  /** `[str(i) for i in ids]` */
  function IdStrings(ids: seq<int>): (r: seq<string>)
    ensures |r| == |ids| && forall k :: 0 <= k < |ids| ==> r[k] == IntToString(ids[k])
  {
    if |ids| == 0 then [] else [IntToString(ids[0])] + IdStrings(ids[1..])
  }

  /** `", ".join(str(i) for i in ids)`: empty exactly for an empty whitelist, since every `str(i)` is non-empty. */
  function JoinIds(ids: seq<int>): (r: string)
    ensures r == [] <==> ids == []
  {
    Join(", ", IdStrings(ids))
  }

  /** Splitting a `", "`-join on `,` and stripping gives back the parts, when none holds a comma or surrounding whitespace. */
  lemma {:induction false} StripSplitJoin(parts: seq<string>)
    requires |parts| >= 1
    requires forall k :: 0 <= k < |parts| ==> ',' !in parts[k] && IsStripped(parts[k])
    ensures StripAll(SplitOn(Join(", ", parts), ',')) == parts
  {
    SplitOnCommaJoin(parts);
    var pieces := SplitOn(Join(", ", parts), ',');
    var r := StripAll(pieces);
    forall k | 0 <= k < |parts|
      ensures r[k] == parts[k]
    {
      if k == 0 {
        StripOfStripped(parts[0]);
      } else {
        StripAfterSpace(parts[k]);
      }
    }
  }

  /** A non-empty list of ids written into the field by autofill is saved back unchanged. */
  lemma {:induction false} WhitelistRoundTrip(ids: seq<int>)
    requires |ids| >= 1
    ensures ParseWhitelist(JoinIds(ids)) == Ok(ids)
  {
    var strs := IdStrings(ids);
    forall k | 0 <= k < |strs|
      ensures ',' !in strs[k] && IsStripped(strs[k])
    {
      IntToStringShape(ids[k]);
    }
    StripSplitJoin(strs);
    var pieces := SplitOn(JoinIds(ids), ',');
    assert StripAll(pieces) == strs;
    forall k | 0 <= k < |pieces|
      ensures ParseId(pieces[k]) == Ok(ids[k])
    {
      assert Strip(pieces[k]) == strs[k];
      ParseIntToString(ids[k]);
    }
    var r := ParseAll(pieces, ParseId);
    assert r.value == ids;
  }

  /** A non-empty word list whose words hold no comma and no surrounding whitespace is saved back unchanged. */
  lemma WordsRoundTrip(words: seq<string>)
    requires |words| >= 1
    requires forall k :: 0 <= k < |words| ==> ',' !in words[k] && IsStripped(words[k])
    ensures ParseWords(Join(", ", words)) == words
  {
    StripSplitJoin(words);
  }

  /** An empty whitelist is autofilled as an empty field, which the next save rejects. */
  lemma EmptyWhitelistCannotBeSavedBack()
    ensures ParseWhitelist(JoinIds([])) == Err("")
  {
    EmptyWhitelistFails();
  }

  // ---------------------------------------------------------------------------
  // save_settings and autofill_settings on values

  /**
   * The `.env` that `save_settings` writes. The Discord token is written under
   * `TOKEN`, while the launcher (main.py) reads `DISCORD_TOKEN`, so a token saved
   * here is not the one the bot logs in with.
   */
  function EnvLines(f: Fields): (lines: seq<EnvLine>)
    ensures |lines| == 4
    ensures lines[0].key == "SHOCKER_APIKEY" && lines[1].key == "SHOCKER_USERNAME"
    ensures lines[2].key == "SHOCKER_CODE" && lines[3].key == "TOKEN"
    ensures lines[0].value == f.apiKey && lines[1].value == f.username
    ensures lines[2].value == f.shockCode && lines[3].value == f.token
  {
    [EnvLine("SHOCKER_APIKEY", f.apiKey), EnvLine("SHOCKER_USERNAME", f.username),
     EnvLine("SHOCKER_CODE", f.shockCode), EnvLine("TOKEN", f.token)]
  }

  function WhitelistDoc(ids: seq<int>): Doc {
    Doc(Some(ids), None, false)
  }

  function WordlistDoc(words: seq<string>): Doc {
    Doc(None, Some(words), false)
  }

  /**
   * The steps of `save_settings`, given the `.env` lines and the outcome of the
   * two list parses: `.env` is written before anything is parsed, so a
   * whitelist that does not parse leaves it rewritten, writes neither JSON
   * file and ends in one error.
   */
  function SaveOrder(env: seq<EnvLine>, ids: Result<seq<int>, string>, words: seq<string>): (r: seq<Effect>)
    // .env is always written, and first
    ensures |r| >= 2 && r[0] == WriteEnv(env)
    // a whitelist that does not parse: one error, and neither JSON file is written
    ensures ids.Err? <==> |r| == 2
    ensures ids.Err? ==> r == [WriteEnv(env), SaveFailed(ids.error)]
    ensures ids.Err? ==> forall k :: 0 <= k < |r| ==> !r[k].WriteJson?
    // otherwise the whitelist is written before the word list, and the success box comes last
    ensures ids.Ok? ==>
      r == [WriteEnv(env), WriteJson(WhitelistJson, WhitelistDoc(ids.value)), WriteJson(WordlistJson, WordlistDoc(words)),
            Info("Success", SavedText)]
  {
    match ids
    case Err(piece) => [WriteEnv(env), SaveFailed(piece)]
    case Ok(vs) =>
      [WriteEnv(env), WriteJson(WhitelistJson, WhitelistDoc(vs)), WriteJson(WordlistJson, WordlistDoc(words)),
       Info("Success", SavedText)]
  }

  /** What `save_settings` does with the fields, in order. */
  function SaveEffects(f: Fields): (r: seq<Effect>)
    ensures |r| >= 2 && r[0] == WriteEnv(EnvLines(f))
  {
    SaveOrder(EnvLines(f), ParseWhitelist(f.whitelist), ParseWords(f.words))
  }

  /**
   * The two JSON files after `save_settings`, given the outcome of the two list
   * parses: both replaced when the whitelist parses, both left as they were
   * when it does not.
   */
  function FilesAfter(ids: Result<seq<int>, string>, words: seq<string>, whitelistFile: FileState, wordlistFile: FileState): (r: (FileState, FileState))
    ensures ids.Err? ==> r == (whitelistFile, wordlistFile)
    ensures ids.Ok? ==> r == (Parsed(WhitelistDoc(ids.value)), Parsed(WordlistDoc(words)))
  {
    match ids
    case Err(_) => (whitelistFile, wordlistFile)
    case Ok(vs) => (Parsed(WhitelistDoc(vs)), Parsed(WordlistDoc(words)))
  }

  function SavedFiles(f: Fields, whitelistFile: FileState, wordlistFile: FileState): (FileState, FileState) {
    FilesAfter(ParseWhitelist(f.whitelist), ParseWords(f.words), whitelistFile, wordlistFile)
  }

  /** `os.getenv(key) or ""` */
  function EnvOrEmpty(env: map<string, string>, key: string): (v: string)
    ensures key in env ==> v == env[key]
    ensures key !in env ==> v == ""
  {
    Getenv(env, key).GetOr("")
  }

  /**
   * `autofill_settings`: each field gets the value inserted at position 0, in
   * front of what it already holds; the list fields only when the file's
   * object has that key.
   */
  function Autofilled(f: Fields, env: map<string, string>, whitelistFile: FileState, wordlistFile: FileState): (g: Fields)
    ensures g.apiKey == EnvOrEmpty(env, "SHOCKER_APIKEY") + f.apiKey
    ensures g.username == EnvOrEmpty(env, "SHOCKER_USERNAME") + f.username
    ensures g.shockCode == EnvOrEmpty(env, "SHOCKER_CODE") + f.shockCode
    ensures g.token == EnvOrEmpty(env, "TOKEN") + f.token
    ensures LoadJsonOrEmpty(whitelistFile).whitelist.None? ==> g.whitelist == f.whitelist
    ensures LoadJsonOrEmpty(whitelistFile).whitelist.Some? ==> g.whitelist == JoinIds(LoadJsonOrEmpty(whitelistFile).whitelist.value) + f.whitelist
    ensures LoadJsonOrEmpty(wordlistFile).words.None? ==> g.words == f.words
    ensures LoadJsonOrEmpty(wordlistFile).words.Some? ==> g.words == Join(", ", LoadJsonOrEmpty(wordlistFile).words.value) + f.words
  {
    var wl := LoadJsonOrEmpty(whitelistFile);
    var wd := LoadJsonOrEmpty(wordlistFile);
    Fields(
      EnvOrEmpty(env, "SHOCKER_APIKEY") + f.apiKey,
      EnvOrEmpty(env, "SHOCKER_USERNAME") + f.username,
      EnvOrEmpty(env, "SHOCKER_CODE") + f.shockCode,
      EnvOrEmpty(env, "TOKEN") + f.token,
      if wl.whitelist.Some? then JoinIds(wl.whitelist.value) + f.whitelist else f.whitelist,
      if wd.words.Some? then Join(", ", wd.words.value) + f.words else f.words)
  }

  /**
   * Autofill into empty fields, then save: lists read from the files are
   * written back unchanged, when the whitelist is not empty and no word holds
   * a comma or surrounding whitespace.
   */
  lemma AutofillThenSave(env: map<string, string>, ids: seq<int>, words: seq<string>, wlOther: bool, wdOther: bool)
    requires |ids| >= 1 && |words| >= 1
    requires forall k :: 0 <= k < |words| ==> ',' !in words[k] && IsStripped(words[k])
    ensures var f := Autofilled(EmptyFields, env, Parsed(Doc(Some(ids), None, wlOther)), Parsed(Doc(None, Some(words), wdOther)));
      SaveEffects(f) == SaveOrder(EnvLines(f), Ok(ids), words)
  {
    var f := Autofilled(EmptyFields, env, Parsed(Doc(Some(ids), None, wlOther)), Parsed(Doc(None, Some(words), wdOther)));
    assert f.whitelist == JoinIds(ids) + "";
    assert JoinIds(ids) + "" == JoinIds(ids);
    assert f.words == Join(", ", words) + "";
    assert Join(", ", words) + "" == Join(", ", words);
    WhitelistRoundTrip(ids);
    WordsRoundTrip(words);
  }

  /** The files a successful save writes are what the bot's gate then reads: the same ids and the same words. */
  lemma SavedListsReachTheGate(ids: seq<int>, words: seq<string>)
    ensures WhitelistOf(Parsed(WhitelistDoc(ids))) == ids
    ensures TriggerWords(Parsed(WordlistDoc(words))) == Some(words)
  {
  }

  // ---------------------------------------------------------------------------
  // update_uptime

  /** A `timedelta` as days and the seconds within the day, with the seconds split into hours, minutes and seconds. */
  datatype Uptime = Uptime(days: int, hours: int, minutes: int, seconds: int)

  /**
   * The uptime of `elapsed` whole seconds: `timedelta` keeps `seconds` in
   * [0, 86400) and puts the rest, rounded down, in `days`, then `divmod` by
   * 3600 and by 60.
   */
  function UptimeOf(elapsed: int): (u: Uptime)
    ensures 0 <= u.hours < 24 && 0 <= u.minutes < 60 && 0 <= u.seconds < 60
    ensures u.days * 86400 + u.hours * 3600 + u.minutes * 60 + u.seconds == elapsed
  {
    var days, secs := elapsed / 86400, elapsed % 86400;
    var hours, remainder := secs / 3600, secs % 3600;
    Uptime(days, hours, remainder / 60, remainder % 60)
  }

  /** Under a day, the time is its own hours, minutes and seconds. */
  lemma UptimeUnderADay(s: int)
    requires 0 <= s < 86400
    ensures UptimeOf(s).days == 0
    ensures UptimeOf(s).hours == s / 3600 && UptimeOf(s).minutes == (s % 3600) / 60 && UptimeOf(s).seconds == s % 60
  {
  }

  /** The split into days, hours, minutes and seconds is the only one within those bounds. */
  lemma UptimeUnique(elapsed: int, u: Uptime)
    requires 0 <= u.hours < 24 && 0 <= u.minutes < 60 && 0 <= u.seconds < 60
    requires u.days * 86400 + u.hours * 3600 + u.minutes * 60 + u.seconds == elapsed
    ensures UptimeOf(elapsed) == u
  {
    var inMinute := u.minutes * 60 + u.seconds;
    var inDay := u.hours * 3600 + inMinute;
    assert elapsed / 86400 == u.days && elapsed % 86400 == inDay;
    assert inDay / 3600 == u.hours && inDay % 3600 == inMinute;
    assert inMinute / 60 == u.minutes && inMinute % 60 == u.seconds;
  }

  /** `f"Uptime: {days}d {hours}h {minutes}m {seconds}s"` */
  function UptimeText(u: Uptime): (r: string)
    ensures StartsWith(r, "Uptime: ") && EndsWith(r, "s")
  {
    var r := "Uptime: " + IntToString(u.days) + "d " + IntToString(u.hours) + "h " + IntToString(u.minutes) + "m "
      + IntToString(u.seconds) + "s";
    assert r[..8] == "Uptime: ";
    r
  }

  /** The label's text before the bot has started is the uptime of zero seconds. */
  lemma UptimeTextOfZero()
    ensures UptimeText(UptimeOf(0)) == "Uptime: 0d 0h 0m 0s"
  {
    assert IntToString(0) == "0";
  }

  // ---------------------------------------------------------------------------
  // update_bot_username

  /**
   * The login name in the most recent log line that has one; `matcher` stands
   * for `re.search(r"Logged on as (\S+#\d+)", line)` and its first group.
   */
  function LatestLogin(lines: seq<string>, matcher: string -> Option<string>): (r: Option<string>)
    ensures r.None? <==> forall i :: 0 <= i < |lines| ==> matcher(lines[i]).None?
  {
    if |lines| == 0 then None
    else
      var front := lines[..|lines| - 1];
      match matcher(lines[|lines| - 1])
      case Some(name) => Some(name)
      case None =>
        assert forall i :: 0 <= i < |front| ==> front[i] == lines[i];
        LatestLogin(front, matcher)
  }

  /** A name found comes from some line, and no later line has one: the most recent login wins. */
  lemma {:induction false} LatestLoginIsLatest(lines: seq<string>, matcher: string -> Option<string>)
    requires LatestLogin(lines, matcher).Some?
    ensures exists i :: (0 <= i < |lines| && matcher(lines[i]) == LatestLogin(lines, matcher)
      && forall j :: i < j < |lines| ==> matcher(lines[j]).None?)
  {
    var last := |lines| - 1;
    var front := lines[..last];
    if matcher(lines[last]).Some? {
      assert matcher(lines[last]) == LatestLogin(lines, matcher);
    } else {
      LatestLoginIsLatest(front, matcher);
      var i :| 0 <= i < |front| && matcher(front[i]) == LatestLogin(front, matcher)
        && forall j :: i < j < |front| ==> matcher(front[j]).None?;
      assert front[i] == lines[i];
      forall j | i < j < |lines|
        ensures matcher(lines[j]).None?
      {
        if j < last {
          assert front[j] == lines[j];
        }
      }
    }
  }

  /** The scan itself: the lines from last to first, stopping at the first match. */
  method FindLatestLogin(lines: seq<string>, matcher: string -> Option<string>) returns (name: Option<string>)
    ensures name == LatestLogin(lines, matcher)
  {
    name := None;
    var i := |lines|;
    assert lines[..i] == lines;
    while i > 0
      invariant 0 <= i <= |lines|
      invariant LatestLogin(lines, matcher) == LatestLogin(lines[..i], matcher)
      decreases i
    {
      assert lines[..i][..i - 1] == lines[..i - 1];
      var m := matcher(lines[i - 1]);
      if m.Some? {
        name := m;
        return;
      }
      i := i - 1;
    }
  }

  /** A later login line replaces an earlier one as the name shown. */
  lemma LaterLoginWins(lines: seq<string>, line: string, matcher: string -> Option<string>)
    requires matcher(line).Some?
    ensures LatestLogin(lines + [line], matcher) == matcher(line)
  {
    assert (lines + [line])[|lines|] == line;
  }

  /** Lines without a login after the last login line do not change the name. */
  lemma {:induction false} TrailingNoiseIgnored(lines: seq<string>, noise: seq<string>, matcher: string -> Option<string>)
    requires forall i :: 0 <= i < |noise| ==> matcher(noise[i]).None?
    ensures LatestLogin(lines + noise, matcher) == LatestLogin(lines, matcher)
    decreases |noise|
  {
    if |noise| > 0 {
      var shorter := noise[..|noise| - 1];
      assert (lines + noise)[..|lines + noise| - 1] == lines + shorter;
      assert (lines + noise)[|lines + noise| - 1] == noise[|noise| - 1];
      TrailingNoiseIgnored(lines, shorter, matcher);
    } else {
      assert lines + noise == lines;
    }
  }

  // ---------------------------------------------------------------------------
  // The window

  /** Appending a sequence's head and then its tail appends the sequence. */
  lemma AppendHeadTail<T>(s: seq<T>, t: seq<T>)
    requires |t| > 0
    ensures s + [t[0]] + t[1..] == s + t
  {
    assert [t[0]] + t[1..] == t;
  }

  class SettingsWindow {
    var entries: Fields
    var env: map<string, string>       // os.environ, with .env loaded at start-up
    var envFile: seq<EnvLine>          // the lines of .env
    var whitelistFile: FileState       // whitelist.json
    var wordlistFile: FileState        // wordlist.json
    var usernameLabel: string
    var uptimeLabel: string
    var effects: seq<Effect>

    /** The window as built: empty fields and the two placeholder labels. */
    constructor (env0: map<string, string>, envFile0: seq<EnvLine>, whitelist0: FileState, wordlist0: FileState)
      ensures entries == EmptyFields
      ensures env == env0 && envFile == envFile0 && whitelistFile == whitelist0 && wordlistFile == wordlist0
      ensures usernameLabel == "Bot Username: waiting..." && uptimeLabel == "Uptime: 0d 0h 0m 0s"
      ensures effects == []
    {
      entries := EmptyFields;
      env, envFile, whitelistFile, wordlistFile := env0, envFile0, whitelist0, wordlist0;
      usernameLabel := "Bot Username: waiting...";
      uptimeLabel := "Uptime: 0d 0h 0m 0s";
      effects := [];
    }

    /** `check_settings`: an error box when a required field is empty. */
    method CheckSettings() returns (ok: bool)
      modifies this`effects
      ensures ok == Complete(entries)
      ensures effects == old(effects) + (if ok then [] else [ErrorBox(FillOutAll)])
    {
      ok := Complete(entries);
      if !ok {
        effects := effects + [ErrorBox(FillOutAll)];
      }
    }

    /** `save_settings`: `.env` first, then the lists are parsed, then the two JSON files. */
    method SaveSettings()
      modifies this`envFile, this`whitelistFile, this`wordlistFile, this`effects
      ensures envFile == EnvLines(entries)
      ensures effects == old(effects) + SaveEffects(entries)
      ensures (whitelistFile, wordlistFile) == SavedFiles(entries, old(whitelistFile), old(wordlistFile))
    {
      var f := entries;
      envFile := EnvLines(f);
      effects := effects + [WriteEnv(envFile)];
      SaveLists(f);
      assert entries == f;
      AppendHeadTail(old(effects), SaveEffects(f));
    }

    /** The rest of `save_settings` once `.env` is written: the two parses, then the JSON files. */
    method SaveLists(f: Fields)
      modifies this`whitelistFile, this`wordlistFile, this`effects
      ensures effects == old(effects) + SaveEffects(f)[1..]
      ensures (whitelistFile, wordlistFile) == SavedFiles(f, old(whitelistFile), old(wordlistFile))
    {
      var ids := ParseWhitelist(f.whitelist);
      var words := ParseWords(f.words);
      StoreLists(ids, words);
    }

    /** The JSON files and the success box for parsed lists, or the error box for a whitelist that did not parse. */
    method StoreLists(ids: Result<seq<int>, string>, words: seq<string>)
      modifies this`whitelistFile, this`wordlistFile, this`effects
      ensures effects == old(effects) + SaveOrder(envFile, ids, words)[1..]
      ensures (whitelistFile, wordlistFile) == FilesAfter(ids, words, old(whitelistFile), old(wordlistFile))
    {
      if ids.Err? {
        effects := effects + [SaveFailed(ids.error)];
        return;
      }
      var wl := WriteJson(WhitelistJson, WhitelistDoc(ids.value));
      var wd := WriteJson(WordlistJson, WordlistDoc(words));
      var done := Info("Success", SavedText);
      ghost var start := effects;
      whitelistFile := Parsed(WhitelistDoc(ids.value));
      effects := effects + [wl];
      wordlistFile := Parsed(WordlistDoc(words));
      effects := effects + [wd];
      effects := effects + [done];
      assert effects == start + [wl] + [wd] + [done];
      assert [wl] + [wd] + [done] == [wl, wd, done];
    }

    /** `autofill_settings` */
    method AutofillSettings()
      modifies this`entries
      ensures entries == Autofilled(old(entries), env, whitelistFile, wordlistFile)
    {
      var wl := LoadJsonOrEmpty(whitelistFile);
      var wd := LoadJsonOrEmpty(wordlistFile);
      entries := entries.(apiKey := EnvOrEmpty(env, "SHOCKER_APIKEY") + entries.apiKey);
      entries := entries.(username := EnvOrEmpty(env, "SHOCKER_USERNAME") + entries.username);
      entries := entries.(shockCode := EnvOrEmpty(env, "SHOCKER_CODE") + entries.shockCode);
      entries := entries.(token := EnvOrEmpty(env, "TOKEN") + entries.token);
      if wl.whitelist.Some? {
        entries := entries.(whitelist := JoinIds(wl.whitelist.value) + entries.whitelist);
      }
      if wd.words.Some? {
        entries := entries.(words := Join(", ", wd.words.value) + entries.words);
      }
    }

    /**
     * `update_bot_username` on the lines of the log: the label shows the most
     * recent login name; without one the label is kept and `retry` asks for
     * another scan later.
     */
    method UpdateBotUsername(logLines: seq<string>, matcher: string -> Option<string>) returns (retry: bool)
      modifies this`usernameLabel
      ensures var name := LatestLogin(logLines, matcher);
        && retry == !(name.Some? && name.value != "")
        && usernameLabel == (if retry then old(usernameLabel) else "Logged in as: " + name.value)
    {
      var name := FindLatestLogin(logLines, matcher);
      if name.Some? && name.value != "" {
        usernameLabel := "Logged in as: " + name.value;
        return false;
      }
      return true;
    }

    /**
     * `update_uptime`, given the whole seconds since the bot was started, or
     * `None` before it was: the label is only changed once it was started.
     * The method always reschedules itself.
     */
    method UpdateUptime(elapsed: Option<int>)
      modifies this`uptimeLabel
      ensures elapsed.None? ==> uptimeLabel == old(uptimeLabel)
      ensures elapsed.Some? ==> uptimeLabel == UptimeText(UptimeOf(elapsed.value))
    {
      if elapsed.Some? {
        var u := UptimeOf(elapsed.value);
        uptimeLabel := UptimeText(u);
      }
    }
  }
}
