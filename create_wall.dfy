/** The "create wall" dialog: its form fields and the submit handler. */
module CreateWall {
  import opened Basics
  import opened Rows
  import Slug

  /** The row the handler asks the backend to insert into `walls`. */
  datatype WallInsert = WallInsert(name: string, slug: string, userId: Id)

  const NotLoggedInMessage: string := "You must be logged in to create a wall."

  /** The insert request built from the form: the slug is normalised, the name kept. */
  function InsertFor(name: string, slug: string, userId: Id): (w: WallInsert)
    ensures w.name == name && w.userId == userId
    ensures w.slug == Slug.Normalise(slug)
    ensures forall i :: 0 <= i < |w.slug| ==> !Slug.IsSpace(w.slug[i]) && !Slug.IsUpper(w.slug[i])
    ensures Slug.Normalise(w.slug) == w.slug
  {
    Slug.NormaliseIdempotent(slug);
    WallInsert(name, Slug.Normalise(slug), userId)
  }

  class CreateWallForm {
    var isOpen: bool
    var loading: bool
    var name: string
    var slug: string

    constructor ()
      ensures !isOpen && !loading && name == "" && slug == ""
    {
      isOpen, loading, name, slug := false, false, "", "";
    }

    /**
     * `handleCreate`. `user` is the signed-in user's id, if any, and
     * `result` the backend's reply to the insert. Returns the insert that
     * was sent, the alert shown, and how many times `onCreated` ran.
     */
    method HandleCreate(user: Option<Id>, result: Outcome)
      returns (sent: Option<WallInsert>, alert: Option<string>, createdCalls: nat)
      modifies this
      ensures !loading
      ensures user.None? ==>
        sent.None? && alert == Some(NotLoggedInMessage) && createdCalls == 0 &&
        name == old(name) && slug == old(slug) && isOpen == old(isOpen)
      ensures user.Some? ==> sent == Some(InsertFor(old(name), old(slug), user.value))
      ensures user.Some? && result.Err? ==>
        alert == Some(result.message) && createdCalls == 0 &&
        name == old(name) && slug == old(slug) && isOpen == old(isOpen)
      ensures user.Some? && result.Ok? ==>
        alert.None? && createdCalls == 1 && name == "" && slug == "" && !isOpen
    {
      loading := true;
      createdCalls := 0;
      if user.None? {
        alert := Some(NotLoggedInMessage);
        sent := None;
        loading := false;
        return;
      }
      sent := Some(InsertFor(name, slug, user.value));
      if result.Err? {
        alert := Some(result.message);
      } else {
        alert := None;
        name := "";
        slug := "";
        isOpen := false;
        createdCalls := createdCalls + 1;
      }
      loading := false;
    }
  }
}
