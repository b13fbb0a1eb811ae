/** handlers/user.py: /start, /getvideo, the Next/Previous callback, the
    category switch and the category list, as steps on the Database that
    return the reply they send. */
module UserHandlers {
  import opened Wrappers
  import opened PyText
  import opened Records
  import opened Store
  import opened Models
  import opened DbUtils
  import opened Keyboards

  /** user.get("selected_category") or "general": None and "" fall back. */
  function EffectiveCategory(selected: Option<string>): (c: string)
    ensures c != []
    ensures selected.Some? && selected.value != [] ==> c == selected.value
    ensures selected.None? || selected.value == [] ==> c == "general"
  {
    if selected.None? || selected.value == [] then "general" else selected.value
  }

  /** What a handler sends (or the exception it raises). */
  datatype UserReply =
    | MessageText(text: string, markup: Option<Keyboard>)     // reply_text
    | VideoMessage(fileId: string, caption: string, keyboard: Keyboard)  // reply_video
    | EditedCaption(text: string)                              // edit_message_caption
    | EditedMedia(fileId: string, keyboard: Keyboard)          // edit_message_media
    | EditedText(text: string, markup: Option<Keyboard>)      // edit_message_text
    | Raised(error: DbError)

  /** The steps /getvideo and the navigation buttons share: get or create
      the user, pick the category, look for an unseen video, and record a
      served one in the history. */
  datatype Served = Served(outcome: Result<Option<Video>, DbError>, category: string, users: seq<User>)

  function ServeStep(users: seq<User>, videos: seq<Video>, userId: int): Served {
    var (user, created) := GetOrCreate(users, userId);
    var category := EffectiveCategory(user.selectedCategory);
    var outcome := GetUnseenVideo(created, videos, userId, category);
    match outcome
    case Ok(Some(v)) => Served(outcome, category, UpdateOne(created, userId, AddToHistory(IdText(v.id))))
    case _ => Served(outcome, category, created)
  }

  /** What serving means: a served video is of the user's effective
      category, was not in the history, and its id string is added to the
      history (set semantics); when nothing is served the history is as it
      was and only get-or-create may have written. */
  lemma ServeStepFacts(users: seq<User>, videos: seq<Video>, userId: int)
    ensures var s := ServeStep(users, videos, userId);
      var (before, created) := GetOrCreate(users, userId);
      && s.category == EffectiveCategory(before.selectedCategory)
      && (s.outcome.Ok? && s.outcome.value.Some? ==>
            var v := s.outcome.value.value;
            && v in videos && v.category == s.category
            && !InHistory(v, before.history)
            && GetUser(s.users, userId) == Some(before.(history := AddToSet(before.history, IdText(v.id))))
            && (forall other :: other != userId ==> GetUser(s.users, other) == GetUser(users, other)))
      && (!(s.outcome.Ok? && s.outcome.value.Some?) ==> s.users == created)
  {
    var s := ServeStep(users, videos, userId);
    var (before, created) := GetOrCreate(users, userId);
    if s.outcome.Ok? && s.outcome.value.Some? {
      var v := s.outcome.value.value;
      UpdateOneLookup(created, userId, AddToHistory(IdText(v.id)), userId);
      forall other | other != userId
        ensures GetUser(s.users, other) == GetUser(users, other)
      {
        UpdateOneLookup(created, userId, AddToHistory(IdText(v.id)), other);
      }
    }
  }

  /** A video just served is not served to the same user by the next
      /getvideo or Next/Previous tap, when its `_id` is an ObjectId. */
  lemma NotServedTwiceInARow(users: seq<User>, videos: seq<Video>, userId: int)
    requires ServeStep(users, videos, userId).outcome.Ok?
    requires ServeStep(users, videos, userId).outcome.value.Some?
    requires ServeStep(users, videos, userId).outcome.value.value.id.ObjectId?
    ensures var s := ServeStep(users, videos, userId);
      ServeStep(s.users, videos, userId).outcome != Ok(Some(s.outcome.value.value))
  {
    var s := ServeStep(users, videos, userId);
    var v := s.outcome.value.value;
    ServeStepFacts(users, videos, userId);
    var after := GetUser(s.users, userId).value;
    assert IdText(v.id) in after.history;
    ParseObjectIdText(v.id.oid);
    assert InHistory(v, after.history);
    ServeStepFacts(s.users, videos, userId);
  }

  const NoMoreForCommand: string := "No more unseen videos in this category! Try another category."
  const NoMoreForButton: string := "No more unseen videos in this category!"

  function CommandReply(s: Served): UserReply {
    match s.outcome
    case Err(e) => Raised(e)
    case Ok(None) => MessageText(NoMoreForCommand, None)
    case Ok(Some(v)) => VideoMessage(v.fileId, "Category: " + s.category, VideoNavigationKeyboard())
  }

  function ButtonReply(s: Served): UserReply {
    match s.outcome
    case Err(e) => Raised(e)
    case Ok(None) => EditedCaption(NoMoreForButton)
    case Ok(Some(v)) => EditedMedia(v.fileId, VideoNavigationKeyboard())
  }

  /** get_video_command. The video is sent before the history is written. */
  method GetVideoCommand(db: Database, userId: int) returns (reply: UserReply)
    modifies db
    ensures var s := ServeStep(old(db.users), old(db.videos), userId);
      db.users == s.users && reply == CommandReply(s)
    ensures db.categories == old(db.categories) && db.videos == old(db.videos)
  {
    var user := GetOrCreateUser(db, userId);
    var category := EffectiveCategory(user.selectedCategory);
    var video := GetUnseenVideo(db.users, db.videos, userId, category);
    match video {
      case Err(e) =>
        reply := Raised(e);
      case Ok(None) =>
        reply := MessageText(NoMoreForCommand, None);
      case Ok(Some(v)) =>
        reply := VideoMessage(v.fileId, "Category: " + category, VideoNavigationKeyboard());
        AddVideoToHistory(db, userId, IdText(v.id));
    }
  }

  /** navigation_callback, for both "next_" and "prev_": the callback data
      is not read, so Previous serves another unseen video like Next. */
  method NavigationCallback(db: Database, userId: int, data: string) returns (reply: UserReply)
    modifies db
    ensures var s := ServeStep(old(db.users), old(db.videos), userId);
      db.users == s.users && reply == ButtonReply(s)
    ensures db.categories == old(db.categories) && db.videos == old(db.videos)
  {
    var user := GetOrCreateUser(db, userId);
    var category := EffectiveCategory(user.selectedCategory);
    var video := GetUnseenVideo(db.users, db.videos, userId, category);
    match video {
      case Err(e) =>
        reply := Raised(e);
      case Ok(None) =>
        reply := EditedCaption(NoMoreForButton);
      case Ok(Some(v)) =>
        reply := EditedMedia(v.fileId, VideoNavigationKeyboard());
        AddVideoToHistory(db, userId, IdText(v.id));
    }
  }

  /** The category name category_callback takes from the callback data:
      every "category_" removed. */
  function SelectedName(data: string): string {
    RemoveAll(data, CategoryPrefix)
  }

  /** category_callback: stores the name as the user's category; a user
      without a document is left without one. */
  method CategoryCallback(db: Database, userId: int, data: string) returns (reply: UserReply)
    modifies db
    ensures db.users == UpdateOne(old(db.users), userId, SetCategory(SelectedName(data)))
    ensures reply == EditedText("\U{2705} Category switched to: " + SelectedName(data) + "\nUse /getvideo to get a video.", None)
    ensures db.categories == old(db.categories) && db.videos == old(db.videos)
  {
    var name := RemoveAll(data, CategoryPrefix);
    UpdateUserCategory(db, userId, name);
    reply := EditedText("\U{2705} Category switched to: " + name + "\nUse /getvideo to get a video.", None);
  }

  /** Tapping the button of a category whose name does not contain
      "category_" selects exactly that category, and nothing but the
      selected category of that user changes. */
  lemma SelectingAButton(users: seq<User>, cats: seq<Category>, i: nat, userId: int)
    requires i < |cats| && !Contains(cats[i].name, CategoryPrefix)
    requires GetUser(users, userId).Some?
    ensures var data := CategoryKeyboard(GetCategoryList(cats))[i][0].data;
      var after := UpdateOne(users, userId, SetCategory(SelectedName(data)));
      && GetUser(after, userId) == Some(GetUser(users, userId).value.(selectedCategory := Some(cats[i].name)))
      && EffectiveCategory(GetUser(after, userId).value.selectedCategory) == (if cats[i].name == [] then "general" else cats[i].name)
  {
    var data := CategoryKeyboard(GetCategoryList(cats))[i][0].data;
    assert data == CategoryData(cats[i].name);
    CategoryDataRoundTrip(cats[i].name);
    UpdateOneLookup(users, userId, SetCategory(cats[i].name), userId);
  }

  /** show_categories_callback: one button per category, in order. */
  method ShowCategoriesCallback(db: Database) returns (reply: UserReply)
    ensures reply.EditedText? && reply.text == "Select a category:" && reply.markup.Some?
    ensures |reply.markup.value| == |db.categories|
    ensures forall i :: 0 <= i < |db.categories| ==>
      reply.markup.value[i] == [Button(db.categories[i].name, CategoryData(db.categories[i].name))]
  {
    var categories := GetCategoryList(db.categories);
    var keyboard := CategoryKeyboard(categories);
    reply := EditedText("Select a category:", Some(keyboard));
  }

  /** start_command: creates the user when missing, then greets. */
  method StartCommand(db: Database, userId: int) returns (reply: UserReply)
    modifies db
    ensures db.users == GetOrCreate(old(db.users), userId).1
    ensures reply == MessageText("\U{1F44B} Welcome! Use /getvideo or the button below to get a random video.",
      Some([[Button("\U{1F3AC} Get Video", "getvideo")]]))
    ensures db.categories == old(db.categories) && db.videos == old(db.videos)
  {
    var user := GetOrCreateUser(db, userId);
    reply := MessageText("\U{1F44B} Welcome! Use /getvideo or the button below to get a random video.",
      Some([[Button("\U{1F3AC} Get Video", "getvideo")]]));
  }
}
