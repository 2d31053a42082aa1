/** The stand-alone add-bookmark form and its submit handler. */
module Form {
  import opened Types

  class BookmarkForm {
    var title: string
    var url: string
    var loading: bool
    /** Every request sent to the backend, in order. */
    ghost var sent: seq<Sent>

    constructor ()
      ensures title == "" && url == "" && !loading && sent == []
    {
      title, url, loading := "", "", false;
      sent := [];
    }

    /** The user types into the title field. */
    method EditTitle(value: string)
      modifies this`title
      ensures title == value
    {
      title := value;
    }

    /** The user types into the URL field. */
    method EditUrl(value: string)
      modifies this`url
      ensures url == value
    {
      url := value;
    }

    /**
     * Submit, where `user` is what the auth lookup returned and `insertFailed`
     * what the insert returned. With an empty title or URL nothing happens.
     * Otherwise the loading indicator is on while the backend is awaited and off
     * at the end: the auth lookup is always sent; with a user one insert follows and the fields are cleared
     * whether or not it failed; without a user nothing is sent and the fields
     * keep their text.
     */
    method HandleSubmit(user: Option<string>, insertFailed: bool)
      modifies this`title, this`url, this`loading, this`sent
      ensures old(title) == "" || old(url) == "" ==>
        title == old(title) && url == old(url) && loading == old(loading) && sent == old(sent)
      ensures old(title) != "" && old(url) != "" && user.Some? ==>
        && sent == old(sent) + [Sent(GetUser, true), Sent(InsertBookmark(old(title), old(url), user.value), true)]
        && title == "" && url == "" && !loading
      ensures old(title) != "" && old(url) != "" && user.None? ==>
        && sent == old(sent) + [Sent(GetUser, true)]
        && title == old(title) && url == old(url) && !loading
    {
      if title == "" || url == "" {
        return;
      }
      loading := true;
      sent := sent + [Sent(GetUser, loading)];
      if user.Some? {
        // The insert's result is not looked at: `insertFailed` makes no difference.
        sent := sent + [Sent(InsertBookmark(title, url, user.value), loading)];
        title := "";
        url := "";
      }
      loading := false;
    }
  }
}
