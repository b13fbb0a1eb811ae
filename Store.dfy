/** The `telegram_video_bot` database: three collections, each a sequence
    of documents in insertion (natural) order, updated in place. */
module Store {
  import opened Records

  class Database {
    var users: seq<User>
    var categories: seq<Category>
    var videos: seq<Video>

    constructor ()
      ensures users == [] && categories == [] && videos == []
    {
      users := [];
      categories := [];
      videos := [];
    }
  }
}
