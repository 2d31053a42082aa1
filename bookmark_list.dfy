/**
 * The stand-alone bookmark list: its one state cell, fed by the same broadcast
 * handler as the dashboard and reset whenever its `initialBookmarks` prop changes.
 */
module List {
  import opened Types
  import opened Reconciler

  class BookmarkList {
    /** The user whose broadcasts this list accepts. */
    const userId: string
    var bookmarks: seq<Bookmark>

    constructor (initialBookmarks: seq<Bookmark>, userId: string)
      ensures this.userId == userId && bookmarks == initialBookmarks
    {
      this.userId := userId;
      bookmarks := initialBookmarks;
    }

    /** A `bookmark_changes` broadcast arrives: the list becomes `Apply` of it. */
    method OnBroadcast(p: ChangePayload)
      modifies this`bookmarks
      ensures bookmarks == Apply(userId, old(bookmarks), p)
      ensures (forall b :: b in bookmarks ==> b in old(bookmarks) || b.userId == userId)
    {
      bookmarks := Apply(userId, bookmarks, p);
    }

    /**
     * The parent passes a new `initialBookmarks` array: the list becomes exactly
     * that array, and whatever earlier broadcasts did to it is gone.
     */
    method ReceiveInitialBookmarks(initialBookmarks: seq<Bookmark>)
      modifies this`bookmarks
      ensures bookmarks == initialBookmarks
    {
      bookmarks := initialBookmarks;
    }
  }
}
