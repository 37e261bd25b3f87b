/**
 * The signed-in user's likes and bookmarks as `Home` obtains them: both
 * start empty and are replaced only when a user is signed in.
 */
module Preferences {
  import opened Wrappers

  /** The identity `getCurrentUser` resolves; only its id is read. */
  datatype User = User(id: string)

  /** The `data` a preference lookup returns; a missing column is `None`. */
  datatype PreferenceRow = PreferenceRow(likes: Option<seq<string>>, bookmarks: Option<seq<string>>)

  /**
   * `let userLikes = []; let userBookmarks = []; if (user) { ... }`. The
   * preference store is the function `store` (a missing row is `None`);
   * `lookups` lists the user ids the store was asked for.
   */
  method LoadPreferences(user: Option<User>, store: string -> Option<PreferenceRow>)
    returns (userLikes: seq<string>, userBookmarks: seq<string>, lookups: seq<string>)
    ensures user.None? ==> lookups == [] && userLikes == [] && userBookmarks == []
    ensures user.Some? ==> lookups == [user.value.id]
    ensures user.Some? && store(user.value.id).Some? && store(user.value.id).value.likes.Some?
      ==> userLikes == store(user.value.id).value.likes.value
    ensures user.Some? && store(user.value.id).Some? && store(user.value.id).value.bookmarks.Some?
      ==> userBookmarks == store(user.value.id).value.bookmarks.value
    ensures (user.None? || store(user.value.id).None? || store(user.value.id).value.likes.None?)
      ==> userLikes == []
    ensures (user.None? || store(user.value.id).None? || store(user.value.id).value.bookmarks.None?)
      ==> userBookmarks == []
  {
    userLikes := [];
    userBookmarks := [];
    lookups := [];
    if user.Some? {
      var data := store(user.value.id);
      lookups := lookups + [user.value.id];
      match data {
        case Some(row) =>
          userLikes := row.likes.GetOr([]);
          userBookmarks := row.bookmarks.GetOr([]);
        case None =>
          userLikes := [];
          userBookmarks := [];
      }
    }
  }
}
