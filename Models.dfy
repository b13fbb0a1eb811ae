/** db/models.py: queries as functions of the collections, and the writes
    (insert_one, update_one with $set / $addToSet, delete_one) as methods
    on the Database whose new state is given by those functions. */
module Models {
  import opened Wrappers
  import opened Records
  import opened Store

  // ---------------------------------------------------------------- users

  /** Position of the document find_one({"user_id": userId}) returns. */
  function UserIndex(users: seq<User>, userId: int): (r: Option<nat>)
    ensures r.Some? ==> r.value < |users| && users[r.value].userId == userId
    ensures r.Some? ==> forall j :: 0 <= j < r.value ==> users[j].userId != userId
    ensures r.None? <==> forall j :: 0 <= j < |users| ==> users[j].userId != userId
  {
    if users == [] then None
    else if users[0].userId == userId then Some(0)
    else match UserIndex(users[1..], userId)
      case None =>
        assert forall j :: 1 <= j < |users| ==> users[j] == users[1..][j - 1];
        None
      case Some(i) => Some(i + 1)
  }

  /** get_user: the first document with that user_id, or None. */
  function GetUser(users: seq<User>, userId: int): (r: Option<User>)
    ensures r.Some? <==> exists j :: 0 <= j < |users| && users[j].userId == userId
    ensures r.Some? ==> r.value in users && r.value.userId == userId
  {
    match UserIndex(users, userId)
    case None => None
    case Some(i) => Some(users[i])
  }

  /** The document create_user builds, at time `now`. */
  function NewUser(userId: int, isPremium: bool, now: int): User {
    User(userId, isPremium, [], None, 0, Limits(0, Some(now)))
  }

  predicate NoDuplicates(xs: seq<string>) {
    forall i, j :: 0 <= i < j < |xs| ==> xs[i] != xs[j]
  }

  /** $addToSet on an array: append the value unless it is already there. */
  function AddToSet(xs: seq<string>, x: string): (r: seq<string>)
    ensures xs <= r && x in r
    ensures forall y :: y in r <==> y in xs || y == x
    ensures x in xs ==> r == xs
    ensures |r| <= |xs| + 1
    ensures NoDuplicates(xs) ==> NoDuplicates(r)
  {
    if x in xs then xs else xs + [x]
  }

  lemma AddToSetIdempotent(xs: seq<string>, x: string)
    ensures AddToSet(AddToSet(xs, x), x) == AddToSet(xs, x)
  {
  }

  /** The update documents the code sends to users.update_one. */
  datatype UserUpdate =
    | SetCategory(category: string)   // {"$set": {"selected_category": ...}}
    | AddToHistory(entry: string)     // {"$addToSet": {"history": ...}}
    | ResetLimits(now: int)           // {"$set": {"limits.daily": 0, "limits.last_reset": now}}

  /** One document after an update: the named fields change, no other does. */
  function Apply(u: User, upd: UserUpdate): (r: User)
    ensures r.userId == u.userId && r.isPremium == u.isPremium && r.tokens == u.tokens
    ensures u.history <= r.history
    ensures upd.SetCategory? ==> r.selectedCategory == Some(upd.category)
    ensures upd.AddToHistory? ==> (forall y :: y in r.history <==> y in u.history || y == upd.entry)
    ensures upd.ResetLimits? ==> r.limits == Limits(0, Some(upd.now))
    ensures !upd.AddToHistory? ==> r.history == u.history
    ensures !upd.SetCategory? ==> r.selectedCategory == u.selectedCategory
    ensures !upd.ResetLimits? ==> r.limits == u.limits
  {
    match upd
    case SetCategory(c) => u.(selectedCategory := Some(c))
    case AddToHistory(e) => u.(history := AddToSet(u.history, e))
    case ResetLimits(now) => u.(limits := Limits(0, Some(now)))
  }

  /** users.update_one({"user_id": userId}, upd): only the first match
      changes; with no match the collection is unchanged. */
  function UpdateOne(users: seq<User>, userId: int, upd: UserUpdate): (r: seq<User>)
    ensures |r| == |users|
    ensures UserIndex(users, userId).None? ==> r == users
    ensures UserIndex(users, userId).Some? ==>
      var i := UserIndex(users, userId).value;
      r[i] == Apply(users[i], upd) && forall j :: 0 <= j < |users| && j != i ==> r[j] == users[j]
  {
    match UserIndex(users, userId)
    case None => users
    case Some(i) => users[i := Apply(users[i], upd)]
  }

  lemma {:induction false} UserIndexSameIds(a: seq<User>, b: seq<User>, userId: int)
    requires |a| == |b| && forall j :: 0 <= j < |a| ==> a[j].userId == b[j].userId
    ensures UserIndex(a, userId) == UserIndex(b, userId)
  {
    if a != [] && a[0].userId != userId {
      UserIndexSameIds(a[1..], b[1..], userId);
    }
  }

  /** After an update, every user is found where it was; the updated user
      reads back as the old document with the update applied, every other
      user reads back unchanged. */
  lemma UpdateOneLookup(users: seq<User>, userId: int, upd: UserUpdate, other: int)
    ensures UserIndex(UpdateOne(users, userId, upd), other) == UserIndex(users, other)
    ensures other != userId ==> GetUser(UpdateOne(users, userId, upd), other) == GetUser(users, other)
    ensures GetUser(UpdateOne(users, userId, upd), userId) ==
      match GetUser(users, userId) case None => None case Some(u) => Some(Apply(u, upd))
  {
    UserIndexSameIds(users, UpdateOne(users, userId, upd), other);
    UserIndexSameIds(users, UpdateOne(users, userId, upd), userId);
  }

  /** Adding the same history entry twice is the same as adding it once. */
  lemma AddToHistoryIdempotent(users: seq<User>, userId: int, entry: string)
    ensures UpdateOne(UpdateOne(users, userId, AddToHistory(entry)), userId, AddToHistory(entry))
         == UpdateOne(users, userId, AddToHistory(entry))
  {
    var once := UpdateOne(users, userId, AddToHistory(entry));
    UpdateOneLookup(users, userId, AddToHistory(entry), userId);
    if UserIndex(users, userId).Some? {
      var i := UserIndex(users, userId).value;
      AddToSetIdempotent(users[i].history, entry);
      assert once[i := Apply(once[i], AddToHistory(entry))] == once;
    }
  }

  // ----------------------------------------------------------- categories

  /** Position of the document find_one({"name": name}) returns. */
  function CategoryIndex(cats: seq<Category>, name: string): (r: Option<nat>)
    ensures r.Some? ==> r.value < |cats| && cats[r.value].name == name
    ensures r.Some? ==> forall j :: 0 <= j < r.value ==> cats[j].name != name
    ensures r.None? <==> forall j :: 0 <= j < |cats| ==> cats[j].name != name
  {
    if cats == [] then None
    else if cats[0].name == name then Some(0)
    else match CategoryIndex(cats[1..], name)
      case None =>
        assert forall j :: 1 <= j < |cats| ==> cats[j] == cats[1..][j - 1];
        None
      case Some(i) => Some(i + 1)
  }

  /** get_category: a document with that name, or None when there is none. */
  function GetCategory(cats: seq<Category>, name: string): (r: Option<Category>)
    ensures r.Some? ==> r.value in cats && r.value.name == name
    ensures r.None? <==> forall c :: c in cats ==> c.name != name
  {
    match CategoryIndex(cats, name)
    case None => None
    case Some(i) => Some(cats[i])
  }

  /** categories.delete_one({"name": name}): the first match goes, the rest
      keep their order. */
  function WithoutCategory(cats: seq<Category>, name: string): (r: seq<Category>)
    ensures CategoryIndex(cats, name).None? ==> r == cats
    ensures CategoryIndex(cats, name).Some? ==>
      var i := CategoryIndex(cats, name).value;
      |r| == |cats| - 1 && r[..i] == cats[..i] && r[i..] == cats[i + 1..]
  {
    match CategoryIndex(cats, name)
    case None => cats
    case Some(i) => cats[..i] + cats[i + 1..]
  }

  predicate UniqueNames(cats: seq<Category>) {
    forall i, j :: 0 <= i < j < |cats| ==> cats[i].name != cats[j].name
  }

  /** With unique names, removing a name removes exactly the category of
      that name and keeps the names unique. */
  lemma RemoveUniqueName(cats: seq<Category>, name: string)
    requires UniqueNames(cats)
    ensures var r := WithoutCategory(cats, name);
      && UniqueNames(r)
      && GetCategory(r, name).None?
      && forall c :: c in r <==> c in cats && c.name != name
  {
    var r := WithoutCategory(cats, name);
    if CategoryIndex(cats, name).Some? {
      var i := CategoryIndex(cats, name).value;
      RemoveAtMembers(cats, i);
      RemoveAtUnique(cats, i);
    }
  }

  lemma RemoveAtMembers(cats: seq<Category>, i: nat)
    requires i < |cats| && UniqueNames(cats)
    ensures forall c :: c in cats[..i] + cats[i + 1..] <==> c in cats && c.name != cats[i].name
  {
    var r := cats[..i] + cats[i + 1..];
    forall c ensures c in r <==> c in cats && c.name != cats[i].name {
      if c in r {
        var k :| 0 <= k < |r| && r[k] == c;
        if k < i { assert r[k] == cats[k]; } else { assert r[k] == cats[k + 1]; }
      }
      if c in cats && c.name != cats[i].name {
        var k :| 0 <= k < |cats| && cats[k] == c;
        if k < i { assert r[k] == c; } else { assert r[k - 1] == c; }
      }
    }
  }

  lemma RemoveAtUnique(cats: seq<Category>, i: nat)
    requires i < |cats| && UniqueNames(cats)
    ensures UniqueNames(cats[..i] + cats[i + 1..])
  {
    var r := cats[..i] + cats[i + 1..];
    forall a, b | 0 <= a < b < |r| ensures r[a].name != r[b].name {
      var a' := if a < i then a else a + 1;
      var b' := if b < i then b else b + 1;
      assert r[a] == cats[a'] && r[b] == cats[b'];
    }
  }

  // --------------------------------------------------------------- videos

  /** A video not excluded by `{"_id": {"$nin": seen}}`: only an ObjectId
      `_id` can equal one of the ObjectIds in `seen`. */
  predicate Avoids(v: Video, seen: seq<ObjectIdText>) {
    !(v.id.ObjectId? && v.id.oid in seen)
  }

  predicate Candidate(v: Video, category: string, seen: seq<ObjectIdText>) {
    v.category == category && Avoids(v, seen)
  }

  /** [ObjectId(vid) for vid in history]: the first entry that is not an
      ObjectId's text raises InvalidId. */
  function ParseHistory(history: seq<string>): (r: Result<seq<ObjectIdText>, DbError>)
    ensures r.Ok? <==> forall k :: 0 <= k < |history| ==> ParseObjectId(history[k]).Some?
    ensures r.Ok? ==> |r.value| == |history|
    ensures r.Ok? ==> forall k :: 0 <= k < |history| ==> Some(r.value[k]) == ParseObjectId(history[k])
    ensures r.Err? ==>
      exists k :: 0 <= k < |history| && r.error == InvalidId(history[k]) && ParseObjectId(history[k]).None?
  {
    if history == [] then Ok([])
    else match ParseObjectId(history[0])
      case None => Err(InvalidId(history[0]))
      case Some(oid) =>
        var rest := ParseHistory(history[1..]);
        assert forall k :: 1 <= k < |history| ==> history[k] == history[1..][k - 1];
        if rest.Err? then
          var k :| 0 <= k < |history[1..]| && rest.error == InvalidId(history[1..][k]) && ParseObjectId(history[1..][k]).None?;
          assert history[k + 1] == history[1..][k];
          rest
        else Ok([oid] + rest.value)
  }

  /** videos.find_one({"category": category, "_id": {"$nin": seen}}). */
  function FirstUnseen(videos: seq<Video>, category: string, seen: seq<ObjectIdText>): (r: Option<Video>)
    ensures r.Some? ==>
      exists i :: 0 <= i < |videos| && videos[i] == r.value && Candidate(videos[i], category, seen) &&
        forall j :: 0 <= j < i ==> !Candidate(videos[j], category, seen)
    ensures r.None? <==> forall v :: v in videos ==> !Candidate(v, category, seen)
  {
    if videos == [] then None
    else if Candidate(videos[0], category, seen) then Some(videos[0])
    else
      var rest := FirstUnseen(videos[1..], category, seen);
      assert forall j :: 1 <= j < |videos| ==> videos[j] == videos[1..][j - 1];
      if rest.Some? then
        var i :| 0 <= i < |videos[1..]| && videos[1..][i] == rest.value && Candidate(videos[1..][i], category, seen)
          && forall j :: 0 <= j < i ==> !Candidate(videos[1..][j], category, seen);
        assert videos[i + 1] == videos[1..][i];
        rest
      else rest
  }

  /** A video is excluded by a history when its `_id` is an ObjectId whose
      text some history entry denotes. */
  predicate InHistory(v: Video, history: seq<string>) {
    v.id.ObjectId? && exists h :: h in history && ParseObjectId(h) == Some(v.id.oid)
  }

  lemma AvoidsParsed(v: Video, history: seq<string>, seen: seq<ObjectIdText>)
    requires ParseHistory(history) == Ok(seen)
    ensures Avoids(v, seen) <==> !InHistory(v, history)
  {
    if v.id.ObjectId? && v.id.oid in seen {
      var k :| 0 <= k < |seen| && seen[k] == v.id.oid;
      assert ParseObjectId(history[k]) == Some(v.id.oid);
    }
    if InHistory(v, history) {
      var h :| h in history && ParseObjectId(h) == Some(v.id.oid);
      var k :| 0 <= k < |history| && history[k] == h;
      assert seen[k] == v.id.oid;
    }
  }

  /** get_unseen_video: raises when the user has no document or a history
      entry is not an ObjectId's text; otherwise the first video of the
      category whose `_id` is not in the history, or None. */
  function GetUnseenVideo(users: seq<User>, videos: seq<Video>, userId: int, category: string): (r: Result<Option<Video>, DbError>)
    ensures GetUser(users, userId).None? ==> r == Err(UserNotFound)
    ensures r.Ok? <==>
      GetUser(users, userId).Some? && forall h :: h in GetUser(users, userId).value.history ==> ParseObjectId(h).Some?
    ensures r.Ok? && r.value.Some? ==>
      var v := r.value.value;
      v in videos && v.category == category && !InHistory(v, GetUser(users, userId).value.history)
    ensures r.Ok? && r.value.None? ==>
      forall v :: v in videos && v.category == category ==> InHistory(v, GetUser(users, userId).value.history)
  {
    match GetUser(users, userId)
    case None => Err(UserNotFound)
    case Some(user) =>
      match ParseHistory(user.history)
      case Err(e) => Err(e)
      case Ok(seen) =>
        var r := FirstUnseen(videos, category, seen);
        forall v | v in videos ensures Avoids(v, seen) <==> !InHistory(v, user.history) {
          AvoidsParsed(v, user.history, seen);
        }
        Ok(r)
  }

  /** is_admin(user_id, admin_ids). */
  function IsAdmin(userId: int, adminIds: seq<int>): (r: bool)
    ensures r <==> exists k :: 0 <= k < |adminIds| && adminIds[k] == userId
  {
    userId in adminIds
  }

  // --------------------------------------------------------------- writes

  /** create_user: inserts the new document and returns it. */
  method CreateUser(db: Database, userId: int, isPremium: bool, now: int) returns (u: User)
    modifies db
    ensures u == User(userId, isPremium, [], None, 0, Limits(0, Some(now)))
    ensures db.users == old(db.users) + [u]
    ensures db.categories == old(db.categories) && db.videos == old(db.videos)
  {
    u := NewUser(userId, isPremium, now);
    db.users := db.users + [u];
  }

  /** update_user_category. */
  method UpdateUserCategory(db: Database, userId: int, category: string)
    modifies db
    ensures db.users == UpdateOne(old(db.users), userId, SetCategory(category))
    ensures db.categories == old(db.categories) && db.videos == old(db.videos)
  {
    db.users := UpdateOne(db.users, userId, SetCategory(category));
  }

  /** add_video_to_history. */
  method AddVideoToHistory(db: Database, userId: int, videoId: string)
    modifies db
    ensures db.users == UpdateOne(old(db.users), userId, AddToHistory(videoId))
    ensures db.categories == old(db.categories) && db.videos == old(db.videos)
  {
    db.users := UpdateOne(db.users, userId, AddToHistory(videoId));
  }

  /** reset_daily_limits at time `now`. */
  method ResetDailyLimits(db: Database, userId: int, now: int)
    modifies db
    ensures db.users == UpdateOne(old(db.users), userId, ResetLimits(now))
    ensures db.categories == old(db.categories) && db.videos == old(db.videos)
  {
    db.users := UpdateOne(db.users, userId, ResetLimits(now));
  }

  /** add_category: appends, with no check on the name. */
  method AddCategory(db: Database, name: string, channelId: string)
    modifies db
    ensures db.categories == old(db.categories) + [Category(name, channelId)]
    ensures db.users == old(db.users) && db.videos == old(db.videos)
  {
    db.categories := db.categories + [Category(name, channelId)];
  }

  /** remove_category. */
  method RemoveCategory(db: Database, name: string)
    modifies db
    ensures db.categories == WithoutCategory(old(db.categories), name)
    ensures db.users == old(db.users) && db.videos == old(db.videos)
  {
    db.categories := WithoutCategory(db.categories, name);
  }

  /** add_video: insert_one with the given `_id`, which raises
      DuplicateKeyError when a video already has that `_id`. */
  method AddVideo(db: Database, id: VideoId, category: string, fileId: string) returns (err: Option<DbError>)
    modifies db
    ensures err.None? <==> forall v :: v in old(db.videos) ==> v.id != id
    ensures err.Some? ==> err.value == DuplicateKey && db.videos == old(db.videos)
    ensures err.None? ==> db.videos == old(db.videos) + [Video(id, category, fileId)]
    ensures db.users == old(db.users) && db.categories == old(db.categories)
  {
    var i := 0;
    while i < |db.videos|
      invariant 0 <= i <= |db.videos|
      invariant forall j :: 0 <= j < i ==> db.videos[j].id != id
    {
      if db.videos[i].id == id {
        return Some(DuplicateKey);
      }
      i := i + 1;
    }
    db.videos := db.videos + [Video(id, category, fileId)];
    err := None;
  }
}
