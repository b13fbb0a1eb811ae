/** config.py: the settings read from the environment at import time. The
    environment is a map from variable names to values; the name under
    which the bot token is looked up is a parameter, because config.py:8
    passes a credential-shaped literal to os.getenv as the variable NAME
    (not "TELEGRAM_BOT_TOKEN"), and that literal is not reproduced here. */
module Config {
  import opened Wrappers
  import opened PyText

  type Env = map<string, string>

  /** What raises while config.py runs: int() on an ADMIN_IDS piece or on
      VIDEO_LIMIT_PER_DAY (ValueError), or the missing-credentials check. */
  datatype ConfigError =
    | BadAdminId(text: string)
    | BadVideoLimit(text: string)
    | MissingCredentials

  datatype Settings = Settings(
    botToken: string,
    mongoUri: string,
    adminIds: seq<int>,
    defaultCategory: string,
    videoLimitPerDay: int)

  const DefaultCategory: string := "general"
  const DefaultVideoLimit: string := "20"

  /** os.getenv(name, default). */
  function Getenv(env: Env, name: string, default: string): string {
    if name in env then env[name] else default
  }

  /** A piece the comprehension gets past: skipped as blank, or int() of it succeeds. */
  predicate Accepted(piece: string) {
    IsBlank(piece) || ParseInt(piece).Some?
  }

  /** [int(uid) for uid in parts if uid.strip()]: blank pieces are skipped,
      the first piece int() rejects raises. */
  function ParseIdList(parts: seq<string>): Result<seq<int>, ConfigError> {
    if parts == [] then Ok([])
    else if !Accepted(parts[0]) then Err(BadAdminId(parts[0]))
    else
      var rest := ParseIdList(parts[1..]);
      if rest.Err? || IsBlank(parts[0]) then rest
      else Ok([ParseInt(parts[0]).value] + rest.value)
  }

  /** The list parses exactly when every piece is blank or an integer. */
  lemma {:induction false} ParseIdListSucceeds(parts: seq<string>)
    ensures ParseIdList(parts).Ok? <==> forall k :: 0 <= k < |parts| ==> Accepted(parts[k])
  {
    if parts != [] {
      ParseIdListSucceeds(parts[1..]);
      assert forall k :: 1 <= k < |parts| ==> parts[k] == parts[1..][k - 1];
    }
  }

  /** The error names the first piece that is neither blank nor an integer. */
  lemma {:induction false} ParseIdListFirstRejected(parts: seq<string>, k: nat)
    requires k < |parts| && !Accepted(parts[k])
    requires forall j :: 0 <= j < k ==> Accepted(parts[j])
    ensures ParseIdList(parts) == Err(BadAdminId(parts[k]))
  {
    if k > 0 {
      ParseIdListFirstRejected(parts[1..], k - 1);
    }
  }

  /** ADMIN_IDS: the variable split on commas. */
  function ParseAdminIds(raw: string): Result<seq<int>, ConfigError> {
    ParseIdList(Split(raw, ','))
  }

  /** The module's top level, run in order: ADMIN_IDS (line 12), then
      VIDEO_LIMIT_PER_DAY (line 16), then the credentials check (line 18). */
  function LoadConfig(env: Env, tokenVar: string): (r: Result<Settings, ConfigError>)
    ensures ParseAdminIds(Getenv(env, "ADMIN_IDS", "")).Err? ==> r == Err(ParseAdminIds(Getenv(env, "ADMIN_IDS", "")).error)
    ensures ParseAdminIds(Getenv(env, "ADMIN_IDS", "")).Ok? && ParseInt(Getenv(env, "VIDEO_LIMIT_PER_DAY", DefaultVideoLimit)).None?
      ==> r == Err(BadVideoLimit(Getenv(env, "VIDEO_LIMIT_PER_DAY", DefaultVideoLimit)))
    ensures ParseAdminIds(Getenv(env, "ADMIN_IDS", "")).Ok? && ParseInt(Getenv(env, "VIDEO_LIMIT_PER_DAY", DefaultVideoLimit)).Some?
      && (tokenVar !in env || env[tokenVar] == [] || "MONGODB_URI" !in env || env["MONGODB_URI"] == [])
      ==> r == Err(MissingCredentials)
    ensures r.Ok? <==>
      && ParseAdminIds(Getenv(env, "ADMIN_IDS", "")).Ok?
      && ParseInt(Getenv(env, "VIDEO_LIMIT_PER_DAY", DefaultVideoLimit)).Some?
      && tokenVar in env && env[tokenVar] != []
      && "MONGODB_URI" in env && env["MONGODB_URI"] != []
    ensures r.Ok? ==>
      && r.value.botToken == env[tokenVar]
      && r.value.mongoUri == env["MONGODB_URI"]
      && r.value.adminIds == ParseAdminIds(Getenv(env, "ADMIN_IDS", "")).value
      && r.value.defaultCategory == Getenv(env, "DEFAULT_CATEGORY", DefaultCategory)
      && Some(r.value.videoLimitPerDay) == ParseInt(Getenv(env, "VIDEO_LIMIT_PER_DAY", DefaultVideoLimit))
  {
    var admins := ParseAdminIds(Getenv(env, "ADMIN_IDS", ""));
    if admins.Err? then Err(admins.error)
    else
      var limitText := Getenv(env, "VIDEO_LIMIT_PER_DAY", DefaultVideoLimit);
      match ParseInt(limitText)
      case None => Err(BadVideoLimit(limitText))
      case Some(limit) =>
        if tokenVar !in env || env[tokenVar] == [] || "MONGODB_URI" !in env || env["MONGODB_URI"] == [] then
          Err(MissingCredentials)
        else
          Ok(Settings(env[tokenVar], env["MONGODB_URI"], admins.value, Getenv(env, "DEFAULT_CATEGORY", DefaultCategory), limit))
  }

  /** The decimal forms of a list of ids. */
  function IdStrings(ids: seq<int>): (r: seq<string>)
    ensures |r| == |ids|
    ensures forall k :: 0 <= k < |ids| ==> r[k] == IntToString(ids[k])
  {
    if ids == [] then [] else [IntToString(ids[0])] + IdStrings(ids[1..])
  }

  lemma IntToStringNotBlank(n: int)
    ensures !IsBlank(IntToString(n)) && ',' !in IntToString(n)
  {
    var s := IntToString(n);
    TrimUnpadded(s, IsSpace);
  }

  lemma {:induction false} ParseIdStrings(ids: seq<int>)
    requires forall k :: 0 <= k < |ids| ==> WithinDigitLimit(ids[k])
    ensures ParseIdList(IdStrings(ids)) == Ok(ids)
  {
    if ids != [] {
      var parts := IdStrings(ids);
      assert parts[1..] == IdStrings(ids[1..]);
      ParseIdStrings(ids[1..]);
      ParseIdStringsHead(ids[0], parts, ids[1..]);
      assert ids == [ids[0]] + ids[1..];
    }
  }

  lemma ParseIdStringsHead(id: int, parts: seq<string>, rest: seq<int>)
    requires parts != [] && parts[0] == IntToString(id) && WithinDigitLimit(id)
    requires ParseIdList(parts[1..]) == Ok(rest)
    ensures ParseIdList(parts) == Ok([id] + rest)
  {
    IntToStringNotBlank(id);
    IntToStringParses(id);
    assert Accepted(parts[0]);
  }

  /** Writing ids comma-separated and reading ADMIN_IDS gives them back,
      for ids str() can print. */
  lemma AdminIdsRoundTrip(ids: seq<int>)
    requires forall k :: 0 <= k < |ids| ==> WithinDigitLimit(ids[k])
    ensures ParseAdminIds(Join(IdStrings(ids), ',')) == Ok(ids)
  {
    if ids == [] {
      assert Split([], ',') == [[]];
      assert IsBlank([]);
    } else {
      var parts := IdStrings(ids);
      forall k | 0 <= k < |parts|
        ensures ',' !in parts[k]
      {
        IntToStringNotBlank(ids[k]);
      }
      SplitJoin(parts, ',');
      ParseIdStrings(ids);
    }
  }

  /** Blank pieces (stray or trailing commas, spaces) add no id, and an
      unset ADMIN_IDS gives no admins. */
  lemma {:induction false} BlankPieces(parts: seq<string>)
    requires forall k :: 0 <= k < |parts| ==> IsBlank(parts[k])
    ensures ParseIdList(parts) == Ok([])
  {
    if parts != [] {
      BlankPieces(parts[1..]);
    }
  }

  lemma UnsetAdminIds()
    ensures ParseAdminIds("") == Ok([])
  {
    assert Split("", ',') == [""];
    BlankPieces([""]);
  }

  /** With neither variable set, the defaults are "general" and 20 videos. */
  lemma Defaults(env: Env, tokenVar: string)
    requires "DEFAULT_CATEGORY" !in env && "VIDEO_LIMIT_PER_DAY" !in env
    requires LoadConfig(env, tokenVar).Ok?
    ensures LoadConfig(env, tokenVar).value.defaultCategory == "general"
    ensures LoadConfig(env, tokenVar).value.videoLimitPerDay == 20
  {
    DefaultLimitParses();
  }

  lemma DefaultLimitParses()
    ensures ParseInt(DefaultVideoLimit) == Some(20)
  {
    assert IntToString(20) == DefaultVideoLimit;
    IntToStringParses(20);
  }

  /** An unset or empty token variable stops the bot from starting. */
  lemma MissingTokenFails(env: Env, tokenVar: string)
    requires tokenVar !in env || env[tokenVar] == []
    ensures LoadConfig(env, tokenVar).Err?
  {
  }
}
