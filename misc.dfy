/**
 * The `Misc` cog: `status`, `banner`, `pfp` and `shutdown`. Each handler splits the
 * invoking message's text on whitespace (the first token is the command itself)
 * and branches on the tokens; what it does is returned as a sequence of actions
 * in the order the handler performs them.
 */
module MiscCog {
  import opened Wrappers
  import opened PyText
  import opened Replies

  /** The presence kinds `status` can set. */
  datatype Activity =
    | Game(name: string)
    | Streaming(name: string, url: string)
    | Listening(name: string)
    | Watching(name: string)

  datatype Action =
    | Send(reply: Reply)                  // ctx.channel.send / ctx.send
    | ChangePresence(activity: Activity)  // bot.change_presence(activity=...)
    | FetchUser(id: string)               // bot.fetch_user(id)
    | Close                               // bot.close()

  /** The replies the handlers send; `Text` gives each one's exact wording. */
  datatype Reply =
    | StatusFormatError
    | TypeNotNumber
    | StatusEmpty
    | InvalidType
    | StatusSet(status: string, kind: string)
    | NoUserGiven
    | AssetMissing(asset: Asset)
    | AssetLink(url: string)
    | ShuttingDown

  datatype Asset = Banner | Avatar

  /** The URLs of a fetched user's banner and avatar, when set. */
  datatype Profile = Profile(banner: Option<string>, avatar: Option<string>)

  /**
   * What `fetch_user` gives for an id: the profile, or `None` when it raises
   * (an unknown user or an id that is not a number), which ends the command.
   */
  type Lookup = string -> Option<Profile>

  const StreamUrl := "https://twitch.tv/meow"

  function Text(r: Reply): string {
    match r
    case StatusFormatError => ErrorReply("Invalid format! Use: >set_status <type> <status>")
    case TypeNotNumber => ErrorReply("Type must be a number (1, 2, 3, or 4).")
    case StatusEmpty => ErrorReply("Status cannot be empty. Provide a valid status.")
    case InvalidType => ErrorReply("Invalid type! Use a valid type:\n1 - Game\n2 - Streaming\n3 - Listening\n4 - Watching")
    case StatusSet(status, kind) => Block("Status set successfully! to " + status + " and type " + kind)
    case NoUserGiven => ErrorReply("Please provide a valid user ID or mention.")
    case AssetMissing(Banner) => ErrorReply("User does not have a banner set.")
    case AssetMissing(Avatar) => ErrorReply("User does not have an avatar set.")
    case AssetLink(url) => url
    case ShuttingDown => "Shutting down..."
  }

  /** The presence for a type number 1-4 with the given text; `None` for any other number. */
  function ActivityFor(kind: int, status: string): Option<Activity> {
    if kind == 1 then Some(Game(status))
    else if kind == 2 then Some(Streaming(status, StreamUrl))
    else if kind == 3 then Some(Listening(status))
    else if kind == 4 then Some(Watching(status))
    else None
  }

  /** The kind's name as the confirmation reply spells it. */
  function KindName(a: Activity): string {
    match a
    case Game(_) => "game"
    case Streaming(_, _) => "streaming"
    case Listening(_) => "listening"
    case Watching(_) => "watching"
  }

  function StatusText(a: Activity): string {
    match a
    case Game(n) => n
    case Streaming(n, _) => n
    case Listening(n) => n
    case Watching(n) => n
  }

  // ---------------------------------------------------------------------------
  // status <type> <text...>

  /** `status <type> <text...>` */
  function SetStatus(content: string): (r: seq<Action>)
    // exactly one reply, and it comes last
    ensures |r| > 0 && r[|r| - 1].Send?
    ensures forall k :: 0 <= k < |r| - 1 ==> !r[k].Send?
    // the empty-status error is never sent: the joined text of three or more tokens is never empty
    ensures Send(StatusEmpty) !in r
  {
    var parts := SplitWs(content);
    if |parts| < 3 then [Send(StatusFormatError)]
    else
      match ParseInt(parts[1])
      case None => [Send(TypeNotNumber)]
      case Some(kind) =>
        var status := Join(" ", parts[2..]);
        if status == "" then [Send(StatusEmpty)]
        else
          match ActivityFor(kind, status)
          case None => [Send(InvalidType)]
          case Some(a) =>
            [ChangePresence(a), Send(StatusSet(status, KindName(a)))]
  }

  /** The presence changes exactly when there are three tokens or more and the type token is a number from 1 to 4. */
  lemma StatusChangesPresenceIff(content: string)
    ensures (exists k :: 0 <= k < |SetStatus(content)| && SetStatus(content)[k].ChangePresence?) <==>
      var parts := SplitWs(content);
      |parts| >= 3 && ParseInt(parts[1]).Some? && 1 <= ParseInt(parts[1]).value <= 4
  {
    var parts := SplitWs(content);
    if |parts| >= 3 && ParseInt(parts[1]).Some? && 1 <= ParseInt(parts[1]).value <= 4 {
      StatusSetsPresence(content);
      assert SetStatus(content)[0].ChangePresence?;
    }
  }

  /** Fewer than three tokens: the format error, and the presence is left alone. */
  lemma StatusNeedsThreeTokens(content: string)
    requires |SplitWs(content)| < 3
    ensures SetStatus(content) == [Send(StatusFormatError)]
  {
  }

  /** A type token that is not an integer: "Type must be a number". */
  lemma StatusTypeMustBeNumber(content: string)
    requires |SplitWs(content)| >= 3 && ParseInt(SplitWs(content)[1]).None?
    ensures SetStatus(content) == [Send(TypeNotNumber)]
  {
  }

  /** A number outside 1-4: the four valid choices are listed and the presence is left alone. */
  lemma StatusTypeOutOfRange(content: string)
    requires |SplitWs(content)| >= 3 && ParseInt(SplitWs(content)[1]).Some?
    requires !(1 <= ParseInt(SplitWs(content)[1]).value <= 4)
    ensures SetStatus(content) == [Send(InvalidType)]
  {
  }

  /**
   * Types 1, 2, 3 and 4 set Game, Streaming (always with the fixed URL), Listening
   * and Watching; the text is the remaining tokens joined by single spaces, and
   * the reply names the kind.
   */
  lemma StatusSetsPresence(content: string)
    requires |SplitWs(content)| >= 3 && ParseInt(SplitWs(content)[1]).Some?
    requires 1 <= ParseInt(SplitWs(content)[1]).value <= 4
    ensures var parts := SplitWs(content);
      var kind, status := ParseInt(parts[1]).value, Join(" ", parts[2..]);
      exists a ::
        && SetStatus(content) == [ChangePresence(a), Send(StatusSet(status, KindName(a)))]
        && StatusText(a) == status
        && (kind == 1 <==> a.Game?) && (kind == 2 <==> a.Streaming?)
        && (kind == 3 <==> a.Listening?) && (kind == 4 <==> a.Watching?)
        && (a.Streaming? ==> a.url == StreamUrl)
  {
    var parts := SplitWs(content);
    var kind, status := ParseInt(parts[1]).value, Join(" ", parts[2..]);
    assert status != "";
    var a := ActivityFor(kind, status).value;
    assert SetStatus(content) == [ChangePresence(a), Send(StatusSet(status, KindName(a)))];
  }

  /** `int()` of a single digit character. */
  lemma ParseDigit(d: nat)
    requires d < 10
    ensures ParseInt([DigitChar(d)]) == Some(d)
  {
    ParseIntToString(d);
  }

  // ---------------------------------------------------------------------------
  // banner / pfp

  /** `<@X>` unwrapped to `X` (`token[2:-1]`); `None` for a token that is not in that shape. */
  function Unmention(token: string): (r: Option<string>)
    ensures r.Some? <==> StartsWith(token, "<@") && EndsWith(token, ">")
    ensures r.Some? ==> token == "<@" + r.value + ">"
  {
    if StartsWith(token, "<@") && EndsWith(token, ">") then
      assert token[1] == '@' && token[|token| - 1] == '>';
      var inner := token[2..|token| - 1];
      assert token == token[..2] + inner + token[|token| - 1..];
      Some(inner)
    else None
  }

  /** Wrapping any text as a mention and unwrapping it gives the text back: `<@!5>` becomes `!5`. */
  lemma UnmentionWrapped(inner: string)
    ensures Unmention("<@" + inner + ">") == Some(inner)
  {
    var t := "<@" + inner + ">";
    assert t[..2] == "<@" && t[|t| - 1..] == ">";
    assert t[2..|t| - 1] == inner;
  }

  function AssetUrl(p: Profile, asset: Asset): Option<string> {
    match asset
    case Banner => p.banner
    case Avatar => p.avatar
  }

  /** `banner` and `pfp`: the shared body, for the banner or the avatar. */
  function ShowAsset(content: string, lookup: Lookup, asset: Asset): (r: seq<Action>)
    // at most one fetch, first, of the unwrapped mention
    ensures forall k :: 0 <= k < |r| && r[k].FetchUser? ==>
      k == 0 && |SplitWs(content)| >= 2 && Unmention(SplitWs(content)[1]) == Some(r[k].id)
    // at most one reply, and it comes last
    ensures forall k :: 0 <= k < |r| && r[k].Send? ==> k == |r| - 1
    ensures |r| <= 2
    // a link is the fetched user's own URL for this asset; "not set" only when they have none
    ensures forall k :: 0 <= k < |r| && r[k].Send? && r[k].reply.AssetLink? ==>
      r[0].FetchUser? && lookup(r[0].id).Some? && AssetUrl(lookup(r[0].id).value, asset) == Some(r[k].reply.url)
    ensures forall k :: 0 <= k < |r| && r[k].Send? && r[k].reply.AssetMissing? ==>
      r[k].reply.asset == asset && r[0].FetchUser? && lookup(r[0].id).Some? && AssetUrl(lookup(r[0].id).value, asset).None?
  {
    var parts := SplitWs(content);
    if |parts| < 2 then [Send(NoUserGiven)]
    else
      match Unmention(parts[1])
      case None => []
      case Some(id) =>
        match lookup(id)
        case None => [FetchUser(id)]
        case Some(p) =>
          match AssetUrl(p, asset)
          case Some(url) => [FetchUser(id), Send(AssetLink(url))]
          case None => [FetchUser(id), Send(AssetMissing(asset))]
  }

  /** `banner <user>` */
  function ShowBanner(content: string, lookup: Lookup): (r: seq<Action>)
    ensures forall k :: 0 <= k < |r| && r[k].Send? && r[k].reply.AssetLink? ==>
      r[0].FetchUser? && lookup(r[0].id).Some? && lookup(r[0].id).value.banner == Some(r[k].reply.url)
    ensures Send(AssetMissing(Avatar)) !in r
  {
    ShowAsset(content, lookup, Banner)
  }

  /** `pfp <user>` */
  function ShowAvatar(content: string, lookup: Lookup): (r: seq<Action>)
    ensures forall k :: 0 <= k < |r| && r[k].Send? && r[k].reply.AssetLink? ==>
      r[0].FetchUser? && lookup(r[0].id).Some? && lookup(r[0].id).value.avatar == Some(r[k].reply.url)
    ensures Send(AssetMissing(Banner)) !in r
  {
    ShowAsset(content, lookup, Avatar)
  }

  /** Without a second token the reply is the "provide a valid user" error. */
  lemma ShowAssetNeedsUser(content: string, lookup: Lookup, asset: Asset)
    requires |SplitWs(content)| < 2
    ensures ShowAsset(content, lookup, asset) == [Send(NoUserGiven)]
  {
  }

  /** A second token that is not a mention: nothing is fetched and nothing is sent. */
  lemma ShowAssetIgnoresNonMention(content: string, lookup: Lookup, asset: Asset)
    requires |SplitWs(content)| >= 2 && !(StartsWith(SplitWs(content)[1], "<@") && EndsWith(SplitWs(content)[1], ">"))
    ensures ShowAsset(content, lookup, asset) == []
  {
  }

  /**
   * A mention `<@X>`: user `X` is fetched, then the asset's URL is sent, or the
   * "does not have ... set" error when the user has none.
   */
  lemma ShowAssetOfMention(content: string, lookup: Lookup, asset: Asset, inner: string, p: Profile)
    requires |SplitWs(content)| >= 2 && SplitWs(content)[1] == "<@" + inner + ">"
    requires lookup(inner) == Some(p)
    ensures ShowAsset(content, lookup, asset)
         == [FetchUser(inner), Send(if AssetUrl(p, asset).Some? then AssetLink(AssetUrl(p, asset).value) else AssetMissing(asset))]
  {
    UnmentionWrapped(inner);
  }

  // ---------------------------------------------------------------------------
  // shutdown

  /** `shutdown`: the acknowledgement is sent before the client is closed. */
  function Shutdown(): (r: seq<Action>)
    ensures |r| == 2 && r[0] == Send(ShuttingDown) && r[1] == Close
  {
    [Send(ShuttingDown), Close]
  }
}

/** Worked `status` examples: `>status 2 hello world` and a type 9. */
module MiscExamples {
  import opened PyText
  import opened MiscCog

  /** `>status 2 hello world` splits into the command, the type and two words of text. */
  lemma SplitStatusExample()
    ensures SplitWs(">status 2 hello world") == [">status", "2", "hello", "world"]
  {
    var tokens := [">status", "2", "hello", "world"];
    assert Join(" ", tokens) == ">status 2 hello world" by {
      assert tokens[1..][1..] == ["hello", "world"];
      assert tokens[1..][1..][1..] == ["world"];
    }
    assert forall k :: 0 <= k < |tokens| ==> tokens[k] != [] && NoSpace(tokens[k]);
    SplitWsJoin(tokens);
  }

  /** Type 2 with any words sets streaming with those words joined, and the reply names streaming. */
  lemma StatusStreamingExample(content: string, words: seq<string>)
    requires |words| > 0
    requires SplitWs(content) == [">status", "2"] + words
    ensures SetStatus(content)
         == [ChangePresence(Streaming(Join(" ", words), StreamUrl)), Send(StatusSet(Join(" ", words), "streaming"))]
  {
    var tokens := SplitWs(content);
    assert tokens[1] == [DigitChar(2)];
    ParseDigit(2);
    assert tokens[2..] == words;
    StatusSetsPresence(content);
  }

  /** A type 9 lists the valid types and changes nothing. */
  lemma StatusInvalidTypeExample(content: string)
    requires SplitWs(content) == [">status", "9", "x"]
    ensures SetStatus(content) == [Send(InvalidType)]
  {
    assert [DigitChar(9)] == "9";
    ParseDigit(9);
  }
}
