/** services/url_shortener.py: the shortening call as a choice over the
    outcome of the HTTP request, and the 24-hour token link. The request
    itself (and its timeout and the printed error) is not modelled: its
    outcome is a parameter. */
module UrlShortener {
  import opened Wrappers
  import opened PyText
  import Helper

  /** What response.json() produced, as far as the key search can tell:
      an object (string values), an array (its string elements), a string,
      or a number, boolean or null. */
  datatype Json =
    | Object(fields: map<string, string>)
    | Array(strings: seq<string>)
    | Text(s: string)
    | Scalar

  datatype Body = ParsedJson(json: Json) | NotJson

  /** The abstract outcome of requests.get: it raised, or a response with a
      status code, a body that response.json() may parse, and response.text. */
  datatype HttpOutcome =
    | RequestRaised
    | Response(status: int, body: Body, text: string)

  /** The keys tried, in order. */
  const ResponseKeys: seq<string> := ["shortenedUrl", "short_url", "shortened", "url"]

  /** The `for key in [...]` search over the parsed body. `key in data` raises
      TypeError on a number, boolean or null; on an array or a string it is
      a membership or substring test, after which `data[key]` raises
      TypeError. Both exceptions land in the `except` that returns the
      stripped text. When no key matches, the function returns `longUrl`. */
  function SearchKeys(json: Json, keys: seq<string>, longUrl: string, text: string): (r: string)
    ensures r == longUrl || r == Strip(text) || (json.Object? && r in json.fields.Values)
  {
    if keys == [] then longUrl
    else
      var key := keys[0];
      match json
      case Scalar => Strip(text)
      case Object(fields) => if key in fields then fields[key] else SearchKeys(json, keys[1..], longUrl, text)
      case Array(strings) => if key in strings then Strip(text) else SearchKeys(json, keys[1..], longUrl, text)
      case Text(s) => if Contains(s, key) then Strip(text) else SearchKeys(json, keys[1..], longUrl, text)
  }

  /** shorten_url(long_url), given the outcome of the request. */
  function ShortenUrl(longUrl: string, outcome: HttpOutcome): (r: string)
    ensures outcome.RequestRaised? ==> r == longUrl
    ensures outcome.Response? && outcome.status != 200 ==> r == longUrl
    ensures outcome.Response? && outcome.status == 200 && outcome.body.NotJson? ==> r == Strip(outcome.text)
    ensures r == longUrl || (outcome.Response? && outcome.status == 200 &&
      (r == Strip(outcome.text) || (outcome.body.ParsedJson? && outcome.body.json.Object? && r in outcome.body.json.fields.Values)))
  {
    match outcome
    case RequestRaised => longUrl
    case Response(status, body, text) =>
      if status != 200 then longUrl
      else match body
        case NotJson => Strip(text)
        case ParsedJson(json) => SearchKeys(json, ResponseKeys, longUrl, text)
  }

  /** For a JSON object, the result is the value of the first of the four
      keys present, and the long link when none is. */
  lemma ObjectResponse(longUrl: string, fields: map<string, string>, text: string)
    ensures var r := ShortenUrl(longUrl, Response(200, ParsedJson(Object(fields)), text));
      && ("shortenedUrl" in fields ==> r == fields["shortenedUrl"])
      && ("shortenedUrl" !in fields && "short_url" in fields ==> r == fields["short_url"])
      && ("shortenedUrl" !in fields && "short_url" !in fields && "shortened" in fields ==> r == fields["shortened"])
      && ("shortenedUrl" !in fields && "short_url" !in fields && "shortened" !in fields && "url" in fields ==> r == fields["url"])
      && ("shortenedUrl" !in fields && "short_url" !in fields && "shortened" !in fields && "url" !in fields ==> r == longUrl)
  {
    var json := Object(fields);
    var k0 := ResponseKeys;
    var k1 := ["short_url", "shortened", "url"];
    var k2 := ["shortened", "url"];
    var k3 := ["url"];
    assert k0[1..] == k1 && k1[1..] == k2 && k2[1..] == k3 && k3[1..] == [];
    assert k3[0] == "url" && k2[0] == "shortened" && k1[0] == "short_url" && k0[0] == "shortenedUrl";
    assert SearchKeys(json, [], longUrl, text) == longUrl;
    var r3 := SearchKeys(json, k3, longUrl, text);
    assert r3 == if "url" in fields then fields["url"] else longUrl;
    var r2 := SearchKeys(json, k2, longUrl, text);
    assert r2 == if "shortened" in fields then fields["shortened"] else r3;
    var r1 := SearchKeys(json, k1, longUrl, text);
    assert r1 == if "short_url" in fields then fields["short_url"] else r2;
    assert SearchKeys(json, k0, longUrl, text) == if "shortenedUrl" in fields then fields["shortenedUrl"] else r1;
  }

  /** A parse that is neither an object nor matched by any key falls back to
      the long link; a scalar gives the stripped text. */
  lemma NonObjectResponse(longUrl: string, json: Json, text: string)
    requires !json.Object?
    ensures var r := ShortenUrl(longUrl, Response(200, ParsedJson(json), text));
      r == Strip(text) || r == longUrl
    ensures json.Scalar? ==> ShortenUrl(longUrl, Response(200, ParsedJson(json), text)) == Strip(text)
  {
  }

  const DaySeconds: int := 86400

  /** The token's plain text: "{user_id}:{expiry_time}". */
  function TokenPayload(userId: int, expiry: int): (p: string)
    ensures |p| == |IntToString(userId)| + 1 + |IntToString(expiry)|
    ensures p[..|IntToString(userId)|] == IntToString(userId)
    ensures p[|IntToString(userId)|] == ':'
    ensures p[|IntToString(userId)| + 1..] == IntToString(expiry)
  {
    IntToString(userId) + ":" + IntToString(expiry)
  }

  /** The deep link that carries a token. */
  function LongLink(botUsername: string, token: string): string {
    "https://telegram.dog/" + botUsername + "?start=token_" + token
  }

  /** generate_24h_token_url(bot_username, user_id) at time `now`, given the
      outcome of the shortening request: the link and the expiry. */
  function GenerateTokenUrl(botUsername: string, userId: int, now: int, outcome: HttpOutcome): (r: (string, int))
    ensures r.1 == now + DaySeconds
    ensures var link := "https://telegram.dog/" + botUsername + "?start=token_" + Helper.StrToB64(TokenPayload(userId, r.1));
      && r.0 == ShortenUrl(link, outcome)
      && (outcome.RequestRaised? || outcome.status != 200 ==> r.0 == link)
  {
    var expiry := now + DaySeconds;
    var token := Helper.StrToB64(TokenPayload(userId, expiry));
    var longLink := LongLink(botUsername, token);
    (ShortenUrl(longLink, outcome), expiry)
  }

  /** The token in the link decodes to exactly "{user_id}:{expiry}". */
  lemma TokenDecodes(userId: int, now: int)
    ensures Helper.B64ToStr(Helper.StrToB64(TokenPayload(userId, now + DaySeconds)))
         == Ok(IntToString(userId) + ":" + IntToString(now + DaySeconds))
  {
    Helper.RoundTrip(TokenPayload(userId, now + DaySeconds));
  }

  /** The payload determines the user and the expiry. */
  lemma {:induction false} TokenPayloadInjective(u1: int, e1: int, u2: int, e2: int)
    requires TokenPayload(u1, e1) == TokenPayload(u2, e2)
    ensures u1 == u2 && e1 == e2
  {
    var p := TokenPayload(u1, e1);
    var s1, s2 := IntToString(u1), IntToString(u2);
    if |s1| != |s2| {
      assert false;
    }
    IntToStringInjective(u1, u2);
    IntToStringInjective(e1, e2);
  }

  /** Distinct (user, expiry) pairs get distinct tokens. */
  lemma TokenIdentifiesGrant(u1: int, e1: int, u2: int, e2: int)
    requires Helper.StrToB64(TokenPayload(u1, e1)) == Helper.StrToB64(TokenPayload(u2, e2))
    ensures u1 == u2 && e1 == e2
  {
    Helper.StrToB64Injective(TokenPayload(u1, e1), TokenPayload(u2, e2));
    TokenPayloadInjective(u1, e1, u2, e2);
  }

  /** When shortening fails, the link handed out is the long link itself, and
      the text after "?start=token_" decodes to the user and the new expiry. */
  lemma FallbackLinkCarriesToken(botUsername: string, userId: int, now: int, outcome: HttpOutcome)
    requires outcome.RequestRaised? || (outcome.Response? && outcome.status != 200)
    ensures var (link, expiry) := GenerateTokenUrl(botUsername, userId, now, outcome);
      var prefix := "https://telegram.dog/" + botUsername + "?start=token_";
      && expiry == now + DaySeconds
      && prefix <= link
      && Helper.B64ToStr(link[|prefix|..]) == Ok(IntToString(userId) + ":" + IntToString(now + DaySeconds))
  {
    var prefix := "https://telegram.dog/" + botUsername + "?start=token_";
    var token := Helper.StrToB64(TokenPayload(userId, now + DaySeconds));
    var link := GenerateTokenUrl(botUsername, userId, now, outcome).0;
    assert link == prefix + token;
    assert link[|prefix|..] == token;
    TokenDecodes(userId, now);
  }
}
