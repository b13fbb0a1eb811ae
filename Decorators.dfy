/** utils/decorators.py: the admin and premium gates around a handler. The
    wrapped handler is a function of the update; the wrapper either returns
    its result or sends a notice and returns None. */
module Decorators {
  import opened Wrappers
  import opened Records
  import opened Models

  /** Which of update.message and update.callback_query is present. */
  datatype Origin = FromMessage | FromCallbackQuery | FromNeither

  datatype Update = Update(userId: int, origin: Origin)

  /** What a denied update is told: a reply to the message, an alert on the
      callback query, or nothing. */
  datatype Notice = ReplyText(text: string) | AlertText(text: string) | NoNotice

  datatype Gated<R> = Ran(result: R) | Denied(notice: Notice)

  function DenialNotice(origin: Origin, replyText: string, alertText: string): Notice {
    match origin
    case FromMessage => ReplyText(replyText)
    case FromCallbackQuery => AlertText(alertText)
    case FromNeither => NoNotice
  }

  /** admin_only(handler) applied to an update. */
  function AdminOnly<R>(adminIds: seq<int>, handler: Update -> R, update: Update): (r: Gated<R>)
    ensures r.Ran? <==> update.userId in adminIds
    ensures r.Ran? ==> r.result == handler(update)
    ensures r.Denied? && update.origin.FromMessage? ==> r.notice == ReplyText("\U{274C} You are not authorized to use this command.")
    ensures r.Denied? && update.origin.FromCallbackQuery? ==> r.notice == AlertText("\U{274C} You are not authorized.")
    ensures r.Denied? && update.origin.FromNeither? ==> r.notice == NoNotice
  {
    if update.userId !in adminIds then
      Denied(DenialNotice(update.origin, "\U{274C} You are not authorized to use this command.", "\U{274C} You are not authorized."))
    else Ran(handler(update))
  }

  /** premium_required(handler) applied to an update, reading the users
      collection and writing nothing. A document without `is_premium`
      cannot arise here: every document this code writes has the field. */
  function PremiumRequired<R>(users: seq<User>, handler: Update -> R, update: Update): (r: Gated<R>)
    ensures r.Ran? <==> GetUser(users, update.userId).Some? && GetUser(users, update.userId).value.isPremium
    ensures r.Ran? ==> r.result == handler(update)
    ensures r.Denied? && update.origin.FromMessage? ==> r.notice == ReplyText("\U{1F512} This feature is for premium users only.")
    ensures r.Denied? && update.origin.FromCallbackQuery? ==> r.notice == AlertText("\U{1F512} Premium only.")
    ensures r.Denied? && update.origin.FromNeither? ==> r.notice == NoNotice
  {
    var user := GetUser(users, update.userId);
    if user.None? || !user.value.isPremium then
      Denied(DenialNotice(update.origin, "\U{1F512} This feature is for premium users only.", "\U{1F512} Premium only."))
    else Ran(handler(update))
  }

  /** A user without a document, or a non-premium one, is turned away. */
  lemma PremiumDeniesUnknown(users: seq<User>, handler: Update -> int, update: Update)
    requires forall j :: 0 <= j < |users| ==> users[j].userId != update.userId || !users[j].isPremium
    ensures PremiumRequired(users, handler, update).Denied?
  {
    var u := GetUser(users, update.userId);
    if u.Some? {
      var j :| 0 <= j < |users| && users[j] == u.value;
    }
  }
}
