/** services/video_service.py: the random pick among unseen videos (the
    random choice is any element of the candidate list), marking a video as
    seen, and the recent-history slice. */
module VideoService {
  import opened Wrappers
  import opened Records
  import opened Store
  import opened Models

  /** The ObjectIds of the history entries that parse, in order; the others
      are skipped (the `try/except: continue` loop). */
  function ValidObjectIds(history: seq<string>): (r: seq<ObjectIdText>)
    ensures |r| <= |history|
    ensures forall oid :: oid in r <==> exists h :: h in history && ParseObjectId(h) == Some(oid)
  {
    if history == [] then []
    else
      var init := history[..|history| - 1];
      var last := history[|history| - 1];
      assert history == init + [last];
      match ParseObjectId(last)
      case None => ValidObjectIds(init)
      case Some(oid) => ValidObjectIds(init) + [oid]
  }

  /** list(videos.find({"category": category, "_id": {"$nin": seen}})). */
  function UnseenVideos(videos: seq<Video>, category: string, seen: seq<ObjectIdText>): (r: seq<Video>)
    ensures forall v :: v in r <==> v in videos && Candidate(v, category, seen)
  {
    if videos == [] then []
    else
      var rest := UnseenVideos(videos[1..], category, seen);
      assert forall v :: v in videos <==> v == videos[0] || v in videos[1..];
      if Candidate(videos[0], category, seen) then [videos[0]] + rest else rest
  }

  lemma AvoidsValid(v: Video, history: seq<string>)
    ensures Avoids(v, ValidObjectIds(history)) <==> !InHistory(v, history)
  {
  }

  /** fetch_random_video: None without a user document; otherwise some
      video of the category that no valid history entry names, or None when
      there is none. Invalid history entries never make it fail. */
  method FetchRandomVideo(db: Database, userId: int, category: string) returns (r: Option<Video>)
    ensures GetUser(db.users, userId).None? ==> r.None?
    ensures r.Some? ==>
      r.value in db.videos && r.value.category == category && !InHistory(r.value, GetUser(db.users, userId).value.history)
    ensures r.None? && GetUser(db.users, userId).Some? ==>
      forall v :: v in db.videos && v.category == category ==> InHistory(v, GetUser(db.users, userId).value.history)
  {
    var user := GetUser(db.users, userId);
    if user.None? {
      return None;
    }
    var history := user.value.history;
    var seen: seq<ObjectIdText> := [];
    var i := 0;
    while i < |history|
      invariant 0 <= i <= |history|
      invariant seen == ValidObjectIds(history[..i])
    {
      assert history[..i + 1][..i] == history[..i];
      match ParseObjectId(history[i]) {
        case Some(oid) => seen := seen + [oid];
        case None =>
      }
      i := i + 1;
    }
    assert history[..i] == history;
    var unseen := UnseenVideos(db.videos, category, seen);
    forall v | v in db.videos ensures Avoids(v, seen) <==> !InHistory(v, history) {
      AvoidsValid(v, history);
    }
    if unseen == [] {
      return None;
    }
    assert unseen[0] in unseen;
    var v :| v in unseen;
    return Some(v);
  }

  /** mark_video_as_seen: $addToSet of str(video_id). */
  method MarkVideoAsSeen(db: Database, userId: int, videoId: VideoId)
    modifies db
    ensures db.users == UpdateOne(old(db.users), userId, AddToHistory(IdText(videoId)))
    ensures db.categories == old(db.categories) && db.videos == old(db.videos)
  {
    AddVideoToHistory(db, userId, IdText(videoId));
  }

  /** Python's xs[start:] for an int start (negative counts from the end). */
  function SliceFrom(xs: seq<string>, start: int): (r: seq<string>)
    ensures |r| <= |xs| && r == xs[|xs| - |r|..]
  {
    var s := if start < 0 then (if |xs| + start < 0 then 0 else |xs| + start)
             else (if start > |xs| then |xs| else start);
    xs[s..]
  }

  /** get_video_history(user_id, limit): history[-limit:] of the user's
      document, or [] without one. */
  function GetVideoHistory(users: seq<User>, userId: int, limit: int): (r: seq<string>)
    ensures GetUser(users, userId).None? ==> r == []
    ensures GetUser(users, userId).Some? ==>
      var h := GetUser(users, userId).value.history;
      && |r| <= |h| && r == h[|h| - |r|..]
      && (limit > 0 ==> |r| == if limit < |h| then limit else |h|)
      && (limit == 0 ==> r == h)
      && (limit < 0 ==> |r| == if |h| + limit < 0 then 0 else |h| + limit)
  {
    match GetUser(users, userId)
    case None => []
    case Some(u) => SliceFrom(u.history, -limit)
  }
}
