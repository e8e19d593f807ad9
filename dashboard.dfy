/**
 * The owner's moderation dashboard: two local tables, `walls` and
 * `testimonials`, mirrored from the backend and changed only after the
 * backend reports that the matching delete or update succeeded.
 */
module Dashboard {
  import opened Basics
  import opened Rows
  import opened Collections

  // ---------------------------------------------------------------------
  // Pure transitions of the local tables
  // ---------------------------------------------------------------------

  /** `walls.filter(w => w.id !== id)`: the wall list once wall `id` is deleted. */
  function WallsWithout(walls: seq<Wall>, id: Id): (r: seq<Wall>)
    ensures forall w :: w in r <==> w in walls && w.id != id
    ensures IsSubsequence(r, walls)
    ensures |r| + Count(walls, (w: Wall) => w.id == id) == |walls|
  {
    CountComplement(walls, (w: Wall) => w.id != id, (w: Wall) => w.id == id);
    Filter(walls, (w: Wall) => w.id != id)
  }

  /** `testimonials.filter(t => t.wall_id !== id)`: the cascade of deleting wall `id`. */
  function TestimonialsOutsideWall(ts: seq<Testimonial>, wallId: Id): (r: seq<Testimonial>)
    ensures forall t :: t in r <==> t in ts && t.wallId != wallId
    ensures IsSubsequence(r, ts)
    ensures |r| + Count(ts, (t: Testimonial) => t.wallId == wallId) == |ts|
  {
    CountComplement(ts, (t: Testimonial) => t.wallId != wallId, (t: Testimonial) => t.wallId == wallId);
    Filter(ts, (t: Testimonial) => t.wallId != wallId)
  }

  /** `testimonials.filter(t => t.id !== id)`: the table once testimonial `id` is deleted. */
  function TestimonialsWithout(ts: seq<Testimonial>, id: Id): (r: seq<Testimonial>)
    ensures forall t :: t in r <==> t in ts && t.id != id
    ensures IsSubsequence(r, ts)
    ensures |r| + Count(ts, (t: Testimonial) => t.id == id) == |ts|
  {
    CountComplement(ts, (t: Testimonial) => t.id != id, (t: Testimonial) => t.id == id);
    Filter(ts, (t: Testimonial) => t.id != id)
  }

  /**
   * `testimonials.map(t => t.id === id ? {...t, is_approved: approved} : t)`:
   * rows with that id get the new flag, every other field and row stays.
   */
  function WithApproval(ts: seq<Testimonial>, id: Id, approved: bool): (r: seq<Testimonial>)
    ensures |r| == |ts|
    ensures forall i :: 0 <= i < |ts| ==> r[i].(isApproved := ts[i].isApproved) == ts[i]
    ensures forall i :: 0 <= i < |ts| ==>
      r[i].isApproved == (if ts[i].id == id then approved else ts[i].isApproved)
  {
    Map(ts, (t: Testimonial) => if t.id == id then t.(isApproved := approved) else t)
  }

  /** The testimonials listed under wall `wallId` (the per-wall filter of the view). */
  function ReviewsFor(ts: seq<Testimonial>, wallId: Id): (r: seq<Testimonial>)
    ensures forall t :: t in r <==> t in ts && t.wallId == wallId
    ensures IsSubsequence(r, ts)
    ensures |r| == Count(ts, (t: Testimonial) => t.wallId == wallId)
  {
    Filter(ts, (t: Testimonial) => t.wallId == wallId)
  }

  /** The "N Reviews" figure shown for wall `wallId`. */
  function ReviewCount(ts: seq<Testimonial>, wallId: Id): (n: nat)
    ensures n == Count(ts, (t: Testimonial) => t.wallId == wallId)
    ensures n <= |ts|
  {
    |ReviewsFor(ts, wallId)|
  }

  // ---------------------------------------------------------------------
  // Properties relating the transitions
  // ---------------------------------------------------------------------

  /** After the cascade, the deleted wall shows no reviews at all. */
  lemma DeletedWallHasNoReviews(ts: seq<Testimonial>, wallId: Id)
    ensures ReviewsFor(TestimonialsOutsideWall(ts, wallId), wallId) == []
    ensures ReviewCount(TestimonialsOutsideWall(ts, wallId), wallId) == 0
  {
  }

  /** Deleting one wall leaves every other wall's review list exactly as it was. */
  lemma {:induction false} DeleteWallKeepsOtherReviews(ts: seq<Testimonial>, deleted: Id, other: Id)
    requires other != deleted
    ensures ReviewsFor(TestimonialsOutsideWall(ts, deleted), other) == ReviewsFor(ts, other)
  {
    FilterNarrow(ts, (t: Testimonial) => t.wallId != deleted, (t: Testimonial) => t.wallId == other);
  }

  /** Toggling approval keeps each wall's list in place, with the one row's flag changed. */
  lemma {:induction false} ApprovalKeepsReviewLists(ts: seq<Testimonial>, id: Id, approved: bool, wallId: Id)
    ensures ReviewsFor(WithApproval(ts, id, approved), wallId) == WithApproval(ReviewsFor(ts, wallId), id, approved)
    ensures ReviewCount(WithApproval(ts, id, approved), wallId) == ReviewCount(ts, wallId)
  {
    FilterMap(ts, (t: Testimonial) => if t.id == id then t.(isApproved := approved) else t,
              (t: Testimonial) => t.wallId == wallId);
  }

  /**
   * The button passes the row's current flag; pressing it twice, with both
   * updates succeeding, gives back the original table.
   */
  lemma {:induction false} ToggleTwiceRestores(ts: seq<Testimonial>, id: Id, current: bool)
    requires forall t :: t in ts && t.id == id ==> t.isApproved == current
    ensures WithApproval(WithApproval(ts, id, !current), id, current) == ts
  {
    var once := WithApproval(ts, id, !current);
    var twice := WithApproval(once, id, current);
    forall i | 0 <= i < |ts|
      ensures twice[i] == ts[i]
    {
      assert ts[i] in ts;
    }
  }

  // ---------------------------------------------------------------------
  // The component state
  // ---------------------------------------------------------------------

  /**
   * The dashboard component's state. Each handler is one atomic step; the
   * confirmation dialog's answer and each backend reply are parameters.
   */
  class DashboardState {
    var walls: seq<Wall>
    var testimonials: seq<Testimonial>
    var loading: bool
    /** The `hasFetched` ref that guards the initial load. */
    var hasFetched: bool

    constructor ()
      ensures walls == [] && testimonials == []
      ensures loading && !hasFetched
    {
      walls, testimonials := [], [];
      loading, hasFetched := true, false;
    }

    /**
     * `fetchData`: with no signed-in user nothing happens. Otherwise the
     * wall list is replaced when the walls query returned data, and the
     * testimonials are replaced only when that list is non-empty and the
     * testimonials query returned data.
     */
    method FetchData(signedIn: bool, wallsData: Option<seq<Wall>>, testimonialsData: Option<seq<Testimonial>>)
      modifies this
      ensures !signedIn ==> unchanged(this)
      ensures signedIn ==> !loading
      ensures signedIn ==> walls == (if wallsData.Some? then wallsData.value else old(walls))
      ensures signedIn ==>
        testimonials == (if wallsData.Some? && |wallsData.value| > 0 && testimonialsData.Some?
                         then testimonialsData.value else old(testimonials))
      ensures hasFetched == old(hasFetched)
    {
      if !signedIn {
        return;
      }
      loading := true;
      if wallsData.Some? {
        walls := wallsData.value;
        if |wallsData.value| > 0 {
          if testimonialsData.Some? {
            testimonials := testimonialsData.value;
          }
        }
      }
      loading := false;
    }

    /** The mount effect: fetch once, guarded by `hasFetched`. */
    method OnMount(signedIn: bool, wallsData: Option<seq<Wall>>, testimonialsData: Option<seq<Testimonial>>)
      modifies this
      ensures hasFetched
      ensures old(hasFetched) ==> unchanged(this)
      ensures !old(hasFetched) && !signedIn ==>
        walls == old(walls) && testimonials == old(testimonials) && loading == old(loading)
      ensures !old(hasFetched) && signedIn ==>
        !loading && walls == (if wallsData.Some? then wallsData.value else old(walls)) &&
        testimonials == (if wallsData.Some? && |wallsData.value| > 0 && testimonialsData.Some?
                         then testimonialsData.value else old(testimonials))
    {
      if !hasFetched {
        FetchData(signedIn, wallsData, testimonialsData);
        hasFetched := true;
      }
    }

    /**
     * `deleteWall`: the delete is sent only when the owner confirms, and the
     * local tables change only when it succeeds; the cascade removes that
     * wall's testimonials.
     */
    method DeleteWall(id: Id, confirmed: bool, result: Outcome) returns (sent: bool)
      modifies this
      ensures sent == confirmed
      ensures confirmed && result.Ok? ==>
        walls == WallsWithout(old(walls), id) &&
        testimonials == TestimonialsOutsideWall(old(testimonials), id)
      ensures !(confirmed && result.Ok?) ==> walls == old(walls) && testimonials == old(testimonials)
      ensures loading == old(loading) && hasFetched == old(hasFetched)
    {
      if !confirmed {
        return false;
      }
      sent := true;
      if result.Ok? {
        walls := WallsWithout(walls, id);
        testimonials := TestimonialsOutsideWall(testimonials, id);
      }
    }

    /** `deleteTestimonial`: confirmed, then applied locally only on success. */
    method DeleteTestimonial(id: Id, confirmed: bool, result: Outcome) returns (sent: bool)
      modifies this
      ensures sent == confirmed
      ensures testimonials ==
        (if confirmed && result.Ok? then TestimonialsWithout(old(testimonials), id) else old(testimonials))
      ensures walls == old(walls)
      ensures loading == old(loading) && hasFetched == old(hasFetched)
    {
      if !confirmed {
        return false;
      }
      sent := true;
      if result.Ok? {
        testimonials := TestimonialsWithout(testimonials, id);
      }
    }

    /**
     * `toggleApproval(id, current)`: the update asks for `!current`, and on
     * success the rows with that id take the new flag.
     */
    method ToggleApproval(id: Id, current: bool, result: Outcome) returns (requested: bool)
      modifies this
      ensures requested == !current
      ensures testimonials ==
        (if result.Ok? then WithApproval(old(testimonials), id, !current) else old(testimonials))
      ensures walls == old(walls)
      ensures loading == old(loading) && hasFetched == old(hasFetched)
    {
      requested := !current;
      if result.Ok? {
        testimonials := WithApproval(testimonials, id, requested);
      }
    }
  }
}
