/** handlers/admin.py: /addcategory and /removecategory as guard chains
    (authorised, enough arguments, absent / present, then the write), and
    the admin callback. Replies are returned as values. */
module AdminHandlers {
  import opened Wrappers
  import opened Records
  import opened Store
  import opened Models

  datatype AdminReply =
    | NotAuthorized
    | AddUsage
    | RemoveUsage
    | AlreadyExists(name: string)
    | Added(name: string, channelId: string)
    | DoesNotExist(name: string)
    | Removed(name: string)

  /** The text each reply sends. */
  function ReplyText(reply: AdminReply): string {
    match reply
    case NotAuthorized => "\U{274C} You are not authorized to use this command."
    case AddUsage => "Usage: /addcategory <category_name> <channel_id>"
    case RemoveUsage => "Usage: /removecategory <category_name>"
    case AlreadyExists(name) => "Category '" + name + "' already exists."
    case Added(name, channelId) => "\U{2705} Category '" + name + "' added with channel ID " + channelId + "."
    case DoesNotExist(name) => "Category '" + name + "' does not exist."
    case Removed(name) => "\U{2705} Category '" + name + "' removed."
  }

  /** add_category_command: the reply and the categories afterwards. */
  function AddCategoryStep(adminIds: seq<int>, cats: seq<Category>, userId: int, args: seq<string>): (r: (AdminReply, seq<Category>))
    ensures !IsAdmin(userId, adminIds) ==> r == (NotAuthorized, cats)
    ensures IsAdmin(userId, adminIds) && |args| < 2 ==> r == (AddUsage, cats)
    ensures r.1 != cats <==> IsAdmin(userId, adminIds) && |args| >= 2 && GetCategory(cats, args[0]).None?
    ensures r.1 != cats ==> r == (Added(args[0], args[1]), cats + [Category(args[0], args[1])])
    ensures r.1 == cats && IsAdmin(userId, adminIds) && |args| >= 2 ==> r.0 == AlreadyExists(args[0])
  {
    if !IsAdmin(userId, adminIds) then (NotAuthorized, cats)
    else if |args| < 2 then (AddUsage, cats)
    else if GetCategory(cats, args[0]).Some? then (AlreadyExists(args[0]), cats)
    else
      assert |cats + [Category(args[0], args[1])]| != |cats|;
      (Added(args[0], args[1]), cats + [Category(args[0], args[1])])
  }

  /** remove_category_command: the reply and the categories afterwards. */
  function RemoveCategoryStep(adminIds: seq<int>, cats: seq<Category>, userId: int, args: seq<string>): (r: (AdminReply, seq<Category>))
    ensures !IsAdmin(userId, adminIds) ==> r == (NotAuthorized, cats)
    ensures IsAdmin(userId, adminIds) && |args| < 1 ==> r == (RemoveUsage, cats)
    ensures r.1 != cats <==> IsAdmin(userId, adminIds) && |args| >= 1 && GetCategory(cats, args[0]).Some?
    ensures r.1 != cats ==> r == (Removed(args[0]), WithoutCategory(cats, args[0])) && |r.1| == |cats| - 1
    ensures r.1 == cats && IsAdmin(userId, adminIds) && |args| >= 1 ==> r.0 == DoesNotExist(args[0])
  {
    if !IsAdmin(userId, adminIds) then (NotAuthorized, cats)
    else if |args| < 1 then (RemoveUsage, cats)
    else if GetCategory(cats, args[0]).None? then (DoesNotExist(args[0]), cats)
    else (Removed(args[0]), WithoutCategory(cats, args[0]))
  }

  /** /addcategory <name> <channel_id> (further arguments are ignored). */
  method AddCategoryCommand(db: Database, adminIds: seq<int>, userId: int, args: seq<string>) returns (reply: AdminReply)
    modifies db
    ensures (reply, db.categories) == AddCategoryStep(adminIds, old(db.categories), userId, args)
    ensures db.users == old(db.users) && db.videos == old(db.videos)
  {
    if !IsAdmin(userId, adminIds) {
      return NotAuthorized;
    }
    if |args| < 2 {
      return AddUsage;
    }
    var name, channelId := args[0], args[1];
    if GetCategory(db.categories, name).Some? {
      return AlreadyExists(name);
    }
    AddCategory(db, name, channelId);
    reply := Added(name, channelId);
  }

  /** /removecategory <name>. */
  method RemoveCategoryCommand(db: Database, adminIds: seq<int>, userId: int, args: seq<string>) returns (reply: AdminReply)
    modifies db
    ensures (reply, db.categories) == RemoveCategoryStep(adminIds, old(db.categories), userId, args)
    ensures db.users == old(db.users) && db.videos == old(db.videos)
  {
    if !IsAdmin(userId, adminIds) {
      return NotAuthorized;
    }
    if |args| < 1 {
      return RemoveUsage;
    }
    var name := args[0];
    if GetCategory(db.categories, name).None? {
      return DoesNotExist(name);
    }
    RemoveCategory(db, name);
    reply := Removed(name);
  }

  /** The callback-query answer: its text and whether it is an alert. */
  datatype Answer = Answer(text: string, showAlert: bool)

  /** admin_callback: an answer only; it has no access to the store. */
  function AdminCallback(adminIds: seq<int>, userId: int): (a: Answer)
    ensures a.showAlert <==> !IsAdmin(userId, adminIds)
    ensures a.text == if IsAdmin(userId, adminIds) then "Admin action performed." else "You are not authorized."
  {
    if !IsAdmin(userId, adminIds) then Answer("You are not authorized.", true)
    else Answer("Admin action performed.", false)
  }

  /** The category commands keep category names unique. */
  lemma AddKeepsNamesUnique(adminIds: seq<int>, cats: seq<Category>, userId: int, args: seq<string>)
    requires UniqueNames(cats)
    ensures UniqueNames(AddCategoryStep(adminIds, cats, userId, args).1)
  {
    var r := AddCategoryStep(adminIds, cats, userId, args).1;
    if r != cats {
      forall i | 0 <= i < |cats| ensures cats[i].name != args[0] {
        assert cats[i] in cats;
      }
    }
  }

  lemma RemoveKeepsNamesUnique(adminIds: seq<int>, cats: seq<Category>, userId: int, args: seq<string>)
    requires UniqueNames(cats)
    ensures UniqueNames(RemoveCategoryStep(adminIds, cats, userId, args).1)
    ensures RemoveCategoryStep(adminIds, cats, userId, args).0.Removed? ==>
      GetCategory(RemoveCategoryStep(adminIds, cats, userId, args).1, args[0]).None?
  {
    if |args| >= 1 {
      RemoveUniqueName(cats, args[0]);
    }
  }

  /** After a successful /addcategory the name is found with its channel. */
  lemma AddedIsFound(adminIds: seq<int>, cats: seq<Category>, userId: int, args: seq<string>)
    requires AddCategoryStep(adminIds, cats, userId, args).0.Added?
    ensures GetCategory(AddCategoryStep(adminIds, cats, userId, args).1, args[0]) == Some(Category(args[0], args[1]))
  {
    var after := cats + [Category(args[0], args[1])];
    assert after[|cats|] == Category(args[0], args[1]);
    CategoryIndexAppend(cats, Category(args[0], args[1]));
  }

  lemma {:induction false} CategoryIndexAppend(cats: seq<Category>, c: Category)
    requires CategoryIndex(cats, c.name).None?
    ensures CategoryIndex(cats + [c], c.name) == Some(|cats|)
  {
    if cats != [] {
      assert (cats + [c])[1..] == cats[1..] + [c];
      CategoryIndexAppend(cats[1..], c);
    }
  }

  /** An admin adds "movies", adds it again, removes it, removes it again:
      added, already exists, removed, does not exist, and the categories end
      as they began. */
  lemma AddRemoveScenario(cats: seq<Category>)
    requires GetCategory(cats, "movies").None?
    ensures
      var admins := [1920026281];
      var (r1, c1) := AddCategoryStep(admins, cats, 1920026281, ["movies", "123"]);
      var (r2, c2) := AddCategoryStep(admins, c1, 1920026281, ["movies", "123"]);
      var (r3, c3) := RemoveCategoryStep(admins, c2, 1920026281, ["movies"]);
      var (r4, c4) := RemoveCategoryStep(admins, c3, 1920026281, ["movies"]);
      && r1 == Added("movies", "123") && r2 == AlreadyExists("movies")
      && r3 == Removed("movies") && r4 == DoesNotExist("movies")
      && c4 == cats
  {
    var admins := [1920026281];
    var c1 := cats + [Category("movies", "123")];
    assert AddCategoryStep(admins, cats, 1920026281, ["movies", "123"]) == (Added("movies", "123"), c1);
    CategoryIndexAppend(cats, Category("movies", "123"));
    assert GetCategory(c1, "movies").Some?;
    assert c1[..|cats|] == cats;
    assert WithoutCategory(c1, "movies") == cats;
  }
}
