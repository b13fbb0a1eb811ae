/** db/utils.py: get-or-create of a user, the category listing and the
    limits reset. (is_user_admin is the membership test Models.IsAdmin.) */
module DbUtils {
  import opened Wrappers
  import opened Records
  import opened Store
  import opened Models

  /** The document get_or_create_user inserts; `last_reset` is null here,
      unlike create_user's. */
  function DefaultUser(userId: int): User {
    User(userId, false, [], None, 0, Limits(0, None))
  }

  /** get_or_create_user as a function: the document returned and the users
      collection afterwards. */
  function GetOrCreate(users: seq<User>, userId: int): (r: (User, seq<User>))
    ensures GetUser(users, userId).Some? ==> r == (GetUser(users, userId).value, users)
    ensures GetUser(users, userId).None? ==>
      r.1 == users + [r.0] && r.0 == User(userId, false, [], None, 0, Limits(0, None))
    ensures GetUser(r.1, userId) == Some(r.0)
    ensures forall other :: other != userId ==> GetUser(r.1, other) == GetUser(users, other)
  {
    match GetUser(users, userId)
    case Some(u) => (u, users)
    case None =>
      var u := DefaultUser(userId);
      AppendLookup(users, u);
      (u, users + [u])
  }

  /** Appending a document leaves the earlier ones found first. */
  lemma {:induction false} AppendLookup(users: seq<User>, u: User)
    ensures forall id :: GetUser(users, id).Some? ==> GetUser(users + [u], id) == GetUser(users, id)
    ensures GetUser(users, u.userId).None? ==> GetUser(users + [u], u.userId) == Some(u)
    ensures forall id :: id != u.userId ==> GetUser(users + [u], id) == GetUser(users, id)
  {
    forall id ensures UserIndex(users + [u], id) == (if UserIndex(users, id).Some? then UserIndex(users, id) else if id == u.userId then Some(|users|) else None) {
      AppendIndex(users, u, id);
    }
  }

  lemma {:induction false} AppendIndex(users: seq<User>, u: User, id: int)
    ensures UserIndex(users + [u], id) ==
      if UserIndex(users, id).Some? then UserIndex(users, id) else if id == u.userId then Some(|users|) else None
  {
    if users != [] {
      assert (users + [u])[1..] == users[1..] + [u];
      AppendIndex(users[1..], u, id);
    }
  }

  /** A second get_or_create_user inserts nothing and returns the same document. */
  lemma GetOrCreateIdempotent(users: seq<User>, userId: int)
    ensures var (u, after) := GetOrCreate(users, userId);
      GetOrCreate(after, userId) == (u, after)
  {
  }

  /** get_or_create_user. */
  method GetOrCreateUser(db: Database, userId: int) returns (u: User)
    modifies db
    ensures (u, db.users) == GetOrCreate(old(db.users), userId)
    ensures db.categories == old(db.categories) && db.videos == old(db.videos)
  {
    var found := GetUser(db.users, userId);
    if found.Some? {
      u := found.value;
    } else {
      u := DefaultUser(userId);
      db.users := db.users + [u];
    }
  }

  /** get_category_list: every category, in order, with its name and
      channel id (documents carry no other modelled field). */
  function GetCategoryList(cats: seq<Category>): (r: seq<Category>)
    ensures |r| == |cats|
    ensures forall k :: 0 <= k < |cats| ==> r[k].name == cats[k].name && r[k].channelId == cats[k].channelId
  {
    if cats == [] then [] else [Category(cats[0].name, cats[0].channelId)] + GetCategoryList(cats[1..])
  }

  /** reset_user_limits at time `now`: the same update as reset_daily_limits. */
  method ResetUserLimits(db: Database, userId: int, now: int)
    modifies db
    ensures db.users == UpdateOne(old(db.users), userId, ResetLimits(now))
    ensures db.categories == old(db.categories) && db.videos == old(db.videos)
  {
    ResetDailyLimits(db, userId, now);
  }
}
