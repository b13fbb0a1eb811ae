/** A run of the bot: the handlers applied one after another to the store.
    Over any run, a user's history only grows, so a video whose `_id` is an
    ObjectId is served to a user at most once. */
module Session {
  import opened Wrappers
  import opened Records
  import opened Models
  import opened DbUtils
  import opened UserHandlers
  import opened AdminHandlers

  /** The updates the handlers act on. bot.py:37-45 routes the commands, the
      `next_`/`prev_`, `category_` and `admin_` callbacks; it routes neither
      ShowCategories nor the "getvideo" button, and nothing in the code calls
      reset_user_limits (LimitsReset). Those events are kept so that the
      history property covers them too, should they be wired up. */
  datatype Event =
    | Start(userId: int)
    | GetVideo(userId: int)
    | Navigate(userId: int, data: string)
    | ChooseCategory(userId: int, data: string)
    | ShowCategories
    | AddCategoryCmd(userId: int, args: seq<string>)
    | RemoveCategoryCmd(userId: int, args: seq<string>)
    | AdminTap(userId: int)
    | LimitsReset(userId: int, now: int)

  datatype State = State(users: seq<User>, categories: seq<Category>, videos: seq<Video>)

  /** The store after one event (the handlers' ensures, as a function). */
  function Step(adminIds: seq<int>, s: State, e: Event): State {
    match e
    case Start(u) => s.(users := GetOrCreate(s.users, u).1)
    case GetVideo(u) => s.(users := ServeStep(s.users, s.videos, u).users)
    case Navigate(u, _) => s.(users := ServeStep(s.users, s.videos, u).users)
    case ChooseCategory(u, data) => s.(users := UpdateOne(s.users, u, SetCategory(SelectedName(data))))
    case ShowCategories => s
    case AddCategoryCmd(u, args) => s.(categories := AddCategoryStep(adminIds, s.categories, u, args).1)
    case RemoveCategoryCmd(u, args) => s.(categories := RemoveCategoryStep(adminIds, s.categories, u, args).1)
    case AdminTap(_) => s
    case LimitsReset(u, now) => s.(users := UpdateOne(s.users, u, ResetLimits(now)))
  }

  /** The video an event serves, if it serves one. */
  function ServedBy(s: State, e: Event): Option<Video> {
    if e.GetVideo? || e.Navigate? then
      match ServeStep(s.users, s.videos, e.userId).outcome
      case Ok(Some(v)) => Some(v)
      case _ => None
    else None
  }

  function Run(adminIds: seq<int>, s: State, events: seq<Event>): State
    decreases |events|
  {
    if events == [] then s else Run(adminIds, Step(adminIds, s, events[0]), events[1..])
  }

  /** Every history entry of every user is still there afterwards. */
  ghost predicate HistoryKept(before: seq<User>, after: seq<User>) {
    forall id, h :: GetUser(before, id).Some? && h in GetUser(before, id).value.history ==>
      GetUser(after, id).Some? && h in GetUser(after, id).value.history
  }

  lemma UpdateKeepsHistory(users: seq<User>, userId: int, upd: UserUpdate)
    ensures HistoryKept(users, UpdateOne(users, userId, upd))
  {
    forall id | GetUser(users, id).Some?
      ensures GetUser(UpdateOne(users, userId, upd), id).Some?
      ensures GetUser(users, id).value.history <= GetUser(UpdateOne(users, userId, upd), id).value.history
    {
      UpdateOneLookup(users, userId, upd, id);
    }
  }

  lemma StepKeepsHistory(adminIds: seq<int>, s: State, e: Event)
    ensures HistoryKept(s.users, Step(adminIds, s, e).users)
    ensures Step(adminIds, s, e).videos == s.videos
  {
    match e
    case Start(u) =>
    case GetVideo(u) => ServeKeepsHistory(s.users, s.videos, u);
    case Navigate(u, _) => ServeKeepsHistory(s.users, s.videos, u);
    case ChooseCategory(u, data) => UpdateKeepsHistory(s.users, u, SetCategory(SelectedName(data)));
    case ShowCategories =>
    case AddCategoryCmd(u, args) =>
    case RemoveCategoryCmd(u, args) =>
    case AdminTap(_) =>
    case LimitsReset(u, now) => UpdateKeepsHistory(s.users, u, ResetLimits(now));
  }

  lemma ServeKeepsHistory(users: seq<User>, videos: seq<Video>, userId: int)
    ensures HistoryKept(users, ServeStep(users, videos, userId).users)
  {
    var created := GetOrCreate(users, userId).1;
    var s := ServeStep(users, videos, userId);
    assert HistoryKept(users, created);
    if s.outcome.Ok? && s.outcome.value.Some? {
      UpdateKeepsHistory(created, userId, AddToHistory(IdText(s.outcome.value.value.id)));
    }
  }

  lemma {:induction false} RunKeepsHistory(adminIds: seq<int>, s: State, events: seq<Event>)
    ensures HistoryKept(s.users, Run(adminIds, s, events).users)
    ensures Run(adminIds, s, events).videos == s.videos
    decreases |events|
  {
    if events != [] {
      var t := Step(adminIds, s, events[0]);
      StepKeepsHistory(adminIds, s, events[0]);
      RunKeepsHistory(adminIds, t, events[1..]);
    }
  }

  lemma {:induction false} RunSplit(adminIds: seq<int>, s: State, events: seq<Event>, i: nat)
    requires i < |events|
    ensures Run(adminIds, s, events[..i + 1]) == Step(adminIds, Run(adminIds, s, events[..i]), events[i])
    decreases i
  {
    if i > 0 {
      assert events[..i + 1][1..] == events[1..][..i];
      assert events[..i][1..] == events[1..][..i - 1];
      RunSplit(adminIds, Step(adminIds, s, events[0]), events[1..], i - 1);
    }
  }

  lemma {:induction false} RunAppend(adminIds: seq<int>, s: State, events: seq<Event>, i: nat, j: nat)
    requires i <= j <= |events|
    ensures Run(adminIds, s, events[..j]) == Run(adminIds, Run(adminIds, s, events[..i]), events[i..j])
    decreases i
  {
    if i > 0 {
      var t := Step(adminIds, s, events[0]);
      var rest := events[1..];
      assert events[..j][0] == events[0] && events[..j][1..] == rest[..j - 1];
      assert events[..i][0] == events[0] && events[..i][1..] == rest[..i - 1];
      assert events[i..j] == rest[i - 1..j - 1];
      RunAppend(adminIds, t, rest, i - 1, j - 1);
      assert Run(adminIds, s, events[..j]) == Run(adminIds, t, rest[..j - 1]);
      assert Run(adminIds, s, events[..i]) == Run(adminIds, t, rest[..i - 1]);
    }
  }

  /** Once a video is served to a user, it is in that user's history. */
  lemma ServedIsRecorded(adminIds: seq<int>, s: State, e: Event, v: Video)
    requires ServedBy(s, e) == Some(v)
    ensures !e.ShowCategories?
    ensures GetUser(Step(adminIds, s, e).users, e.userId).Some?
    ensures IdText(v.id) in GetUser(Step(adminIds, s, e).users, e.userId).value.history
  {
    ServeStepFacts(s.users, s.videos, e.userId);
  }

  /** A user with the id of an ObjectId video in the history is not served it. */
  lemma NotServedFromHistory(s: State, e: Event, v: Video)
    requires v.id.ObjectId? && !e.ShowCategories?
    requires GetUser(s.users, e.userId).Some? && IdText(v.id) in GetUser(s.users, e.userId).value.history
    ensures ServedBy(s, e) != Some(v)
  {
    if e.GetVideo? || e.Navigate? {
      ServeStepFacts(s.users, s.videos, e.userId);
      ParseObjectIdText(v.id.oid);
      assert InHistory(v, GetUser(s.users, e.userId).value.history);
    }
  }

  /** No video with an ObjectId `_id` is served twice to the same user,
      whatever happens between the two events. */
  lemma NeverServedTwice(adminIds: seq<int>, s: State, events: seq<Event>, i: nat, j: nat, v: Video)
    requires i < j < |events|
    requires events[i].GetVideo? || events[i].Navigate?
    requires events[j].GetVideo? || events[j].Navigate?
    requires events[i].userId == events[j].userId
    requires v.id.ObjectId?
    requires ServedBy(Run(adminIds, s, events[..i]), events[i]) == Some(v)
    ensures ServedBy(Run(adminIds, s, events[..j]), events[j]) != Some(v)
  {
    var si := Run(adminIds, s, events[..i]);
    var after := Run(adminIds, s, events[..i + 1]);
    RunSplit(adminIds, s, events, i);
    ServedIsRecorded(adminIds, si, events[i], v);
    var sj := Run(adminIds, s, events[..j]);
    RunAppend(adminIds, s, events, i + 1, j);
    RunKeepsHistory(adminIds, after, events[i + 1..j]);
    NotServedFromHistory(sj, events[j], v);
  }
}
