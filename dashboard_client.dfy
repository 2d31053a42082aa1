/**
 * The dashboard screen's state: the bookmarks on screen, the new-bookmark
 * fields, the saving indicator and the delete-confirmation modal, with the
 * handlers that update them. Each handler runs to completion; the outcome of
 * the backend call it awaits is a parameter.
 */
module Dashboard {
  import opened Types
  import opened Reconciler

  /** The delete-confirmation modal: whether it is shown and which bookmark it asks about. */
  datatype DeleteModal = DeleteModal(show: bool, bookmarkId: Option<string>)

  /** The modal hidden and asking about nothing. */
  const Closed := DeleteModal(false, None)

  /** `!deleteModal.bookmarkId` in the confirm handler: no id, or the empty string. */
  predicate NoId(id: Option<string>) {
    id.None? || id.value == ""
  }

  class DashboardClient {
    /** The signed-in user the page was rendered for. */
    const userId: string
    var bookmarks: seq<Bookmark>
    var title: string
    var url: string
    var loading: bool
    var deleteModal: DeleteModal
    /** Every request sent to the backend, in order. */
    ghost var sent: seq<Sent>

    /** The initial state; a missing initial list becomes the empty list. */
    constructor (userId: string, initialBookmarks: Option<seq<Bookmark>>)
      ensures this.userId == userId
      ensures bookmarks == (if initialBookmarks.Some? then initialBookmarks.value else [])
      ensures title == "" && url == "" && !loading && deleteModal == Closed && sent == []
    {
      this.userId := userId;
      bookmarks := if initialBookmarks.Some? then initialBookmarks.value else [];
      title, url, loading := "", "", false;
      deleteModal := Closed;
      sent := [];
    }

    /** A `bookmark_changes` broadcast arrives: only the list changes, as `Apply` says. */
    method OnBroadcast(p: ChangePayload)
      modifies this`bookmarks
      ensures bookmarks == Apply(userId, old(bookmarks), p)
      ensures (forall b :: b in bookmarks ==> b in old(bookmarks) || b.userId == userId)
    {
      bookmarks := Apply(userId, bookmarks, p);
    }

    /** The user types into the title field. */
    method EditTitle(value: string)
      modifies this`title
      ensures title == value
    {
      title := value;
    }

    /** The user types into the URL field. */
    method EditUrl(value: string)
      modifies this`url
      ensures url == value
    {
      url := value;
    }

    /**
     * Save: with an empty title or URL nothing happens. Otherwise one insert is
     * sent with the loading indicator on; the fields are cleared only when the
     * insert reports no error, and the indicator ends off. The list itself is
     * not touched: the new bookmark arrives by broadcast.
     */
    method HandleSave(insertFailed: bool)
      modifies this`title, this`url, this`loading, this`sent
      ensures old(title) == "" || old(url) == "" ==>
        title == old(title) && url == old(url) && loading == old(loading) && sent == old(sent)
      ensures old(title) != "" && old(url) != "" ==>
        && sent == old(sent) + [Sent(InsertBookmark(old(title), old(url), userId), true)]
        && (if insertFailed then title == old(title) && url == old(url) else title == "" && url == "")
        && !loading
    {
      if title == "" || url == "" {
        return;
      }
      loading := true;
      sent := sent + [Sent(InsertBookmark(title, url, userId), loading)];
      if !insertFailed {
        title := "";
        url := "";
      }
      loading := false;
    }

    /** The delete button of a bookmark opens the modal for that bookmark. */
    method HandleDelete(id: string)
      modifies this`deleteModal
      ensures deleteModal == DeleteModal(true, Some(id))
    {
      deleteModal := DeleteModal(true, Some(id));
    }

    /**
     * Confirm: without an id in the modal nothing happens. Otherwise one delete
     * for that id is sent and, whatever it returns, the modal closes. The list
     * is not touched: the removal arrives by broadcast.
     */
    method ConfirmDelete()
      modifies this`deleteModal, this`sent
      ensures NoId(old(deleteModal).bookmarkId) ==> deleteModal == old(deleteModal) && sent == old(sent)
      ensures !NoId(old(deleteModal).bookmarkId) ==>
        && sent == old(sent) + [Sent(DeleteBookmark(old(deleteModal).bookmarkId.value), loading)]
        && deleteModal == Closed
    {
      if NoId(deleteModal.bookmarkId) {
        return;
      }
      sent := sent + [Sent(DeleteBookmark(deleteModal.bookmarkId.value), loading)];
      deleteModal := Closed;
    }

    /** Cancel (or a click on the backdrop) closes the modal. */
    method CancelDelete()
      modifies this`deleteModal
      ensures deleteModal == Closed
    {
      deleteModal := Closed;
    }
  }
}
