/** The documents of the three MongoDB collections (users, categories,
    videos) and the text form of a BSON ObjectId. */
module Records {
  import opened Wrappers

  predicate IsHexDigit(c: char) {
    '0' <= c <= '9' || 'a' <= c <= 'f' || 'A' <= c <= 'F'
  }

  predicate IsLowerHex(c: char) {
    '0' <= c <= '9' || 'a' <= c <= 'f'
  }

  function LowerHex(c: char): (d: char)
    requires IsHexDigit(c)
    ensures IsLowerHex(d)
    ensures IsLowerHex(c) ==> d == c
  {
    if 'A' <= c <= 'F' then (c as int - 'A' as int + 'a' as int) as char else c
  }

  /** str() of an ObjectId: 24 lower-case hexadecimal digits. */
  predicate IsObjectIdText(s: string) {
    |s| == 24 && forall k :: 0 <= k < |s| ==> IsLowerHex(s[k])
  }

  type ObjectIdText = s: string | IsObjectIdText(s) witness "000000000000000000000000"

  function Lowered(s: string): (r: string)
    requires forall k :: 0 <= k < |s| ==> IsHexDigit(s[k])
    ensures |r| == |s| && forall k :: 0 <= k < |s| ==> r[k] == LowerHex(s[k])
  {
    if s == [] then [] else [LowerHex(s[0])] + Lowered(s[1..])
  }

  /** ObjectId(text): 24 hexadecimal digits in either case are accepted,
      anything else raises InvalidId (None here). */
  function ParseObjectId(s: string): (r: Option<ObjectIdText>)
    ensures r.Some? <==> |s| == 24 && forall k :: 0 <= k < |s| ==> IsHexDigit(s[k])
    ensures r.Some? ==> forall k :: 0 <= k < 24 ==> r.value[k] == LowerHex(s[k])
  {
    if |s| == 24 && forall k :: 0 <= k < |s| ==> IsHexDigit(s[k]) then
      var oid: ObjectIdText := Lowered(s);
      Some(oid)
    else None
  }

  /** ObjectId(str(oid)) == oid. */
  lemma ParseObjectIdText(oid: ObjectIdText)
    ensures ParseObjectId(oid) == Some(oid)
  {
    assert forall k :: 0 <= k < |oid| ==> IsLowerHex(oid[k]);
    var r := ParseObjectId(oid);
    assert r.value == oid;
  }

  /** A video's `_id`: an ObjectId, or any other value (shown by its str()). */
  datatype VideoId = ObjectId(oid: ObjectIdText) | OtherId(text: string)

  /** str(video["_id"]). */
  function IdText(id: VideoId): string {
    match id
    case ObjectId(oid) => oid
    case OtherId(text) => text
  }

  datatype Video = Video(id: VideoId, category: string, fileId: string)

  /** The `limits` sub-document; `lastReset` is a time, or None (null). */
  datatype Limits = Limits(daily: int, lastReset: Option<int>)

  datatype User = User(
    userId: int,
    isPremium: bool,
    history: seq<string>,
    selectedCategory: Option<string>,
    tokens: int,
    limits: Limits)

  datatype Category = Category(name: string, channelId: string)

  /** Exceptions the collection operations raise. */
  datatype DbError =
    | UserNotFound         // user.get(...) on the None find_one returned
    | InvalidId(text: string)  // ObjectId(text) on a history entry
    | DuplicateKey         // insert_one with an `_id` already present
}
