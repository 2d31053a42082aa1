/** Values shared by the components of the bookmark dashboard. */
module Types {

  /** A value that may be absent (a `null`/`undefined` field of a payload, no signed-in user). */
  datatype Option<T> = None | Some(value: T)

  /** A row of the `bookmarks` table as the client holds it; every column arrives as text. */
  datatype Bookmark = Bookmark(id: string, title: string, url: string, createdAt: string, userId: string)

  /**
   * The payload of a `bookmark_changes` broadcast: the change type as sent
   * (`"INSERT"`, `"UPDATE"`, `"DELETE"` or anything else), the new row, and the
   * row as it was before the change. Either row may be missing.
   */
  datatype ChangePayload = ChangePayload(kind: string, record: Option<Bookmark>, oldRecord: Option<Bookmark>)

  /** A request a component sends to the hosted backend. */
  datatype BackendCall =
    | InsertBookmark(title: string, url: string, userId: string)
    | DeleteBookmark(id: string)
    | GetUser

  /**
   * A backend request together with whether the component's saving indicator
   * (`loading`) was on while it was awaited. For a delete this is the save
   * button's indicator, which the delete path never sets, and nothing more.
   */
  datatype Sent = Sent(call: BackendCall, whileLoading: bool)
}
