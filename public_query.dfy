/**
 * `getPublicTestimonials(slug)`: the approved testimonials of the wall a
 * slug names, newest first, over a snapshot of the two tables. Every
 * failure yields the empty list.
 */
module PublicQuery {
  import opened Basics
  import opened Rows
  import opened Collections
  import Dashboard

  /** A snapshot of the backend's two tables. */
  datatype Database = Database(walls: seq<Wall>, testimonials: seq<Testimonial>)

  /** The transport failures the function can meet: either query erring, or anything thrown. */
  datatype Faults = Faults(wallQueryFails: bool, testimonialQueryFails: bool, throws: bool)

  const NoFaults: Faults := Faults(false, false, false)

  /** `.eq('slug', slug).single()`: a wall only when exactly one row has that slug. */
  function ResolveSlug(walls: seq<Wall>, slug: string): (r: Option<Wall>)
    ensures r.Some? <==> Count(walls, (w: Wall) => w.slug == slug) == 1
    ensures r.Some? ==> r.value in walls && r.value.slug == slug
    ensures r.Some? ==> forall w :: w in walls && w.slug == slug ==> w == r.value
  {
    var matches := Filter(walls, (w: Wall) => w.slug == slug);
    if |matches| == 1 then
      assert matches[0] in matches;
      Some(matches[0])
    else None
  }

  /** Ordered by `created_at`, newest first. */
  ghost predicate NewestFirst(ts: seq<Testimonial>)
  {
    forall i, j :: 0 <= i < j < |ts| ==> ts[i].createdAt >= ts[j].createdAt
  }

  /** A row at least as new as the head of a newest-first list can go in front of it. */
  lemma {:induction false} PrependNewest(x: Testimonial, rest: seq<Testimonial>)
    requires NewestFirst(rest)
    requires rest != [] ==> x.createdAt >= rest[0].createdAt
    ensures NewestFirst([x] + rest)
  {
    var r := [x] + rest;
    forall i, j | 0 <= i < j < |r|
      ensures r[i].createdAt >= r[j].createdAt
    {
      if i == 0 {
        assert r[j] == rest[j - 1];
        assert rest[0].createdAt >= rest[j - 1].createdAt;
      } else {
        assert r[i] == rest[i - 1] && r[j] == rest[j - 1];
      }
    }
  }

  function InsertByDate(t: Testimonial, sorted: seq<Testimonial>): (r: seq<Testimonial>)
    requires NewestFirst(sorted)
    ensures |r| == |sorted| + 1
    ensures r[0] == t || (sorted != [] && r[0] == sorted[0])
    ensures NewestFirst(r)
    ensures multiset(r) == multiset(sorted) + multiset{t}
  {
    if sorted == [] then [t]
    else if t.createdAt >= sorted[0].createdAt then
      PrependNewest(t, sorted);
      [t] + sorted
    else
      var rest := InsertByDate(t, sorted[1..]);
      assert sorted == [sorted[0]] + sorted[1..];
      assert multiset(sorted) == multiset{sorted[0]} + multiset(sorted[1..]);
      PrependNewest(sorted[0], rest);
      var r := [sorted[0]] + rest;
      assert multiset(r) == multiset{sorted[0]} + multiset(rest);
      r
  }

  /** `.order('created_at', { ascending: false })`: a reordering that is newest first. */
  function SortNewestFirst(ts: seq<Testimonial>): (r: seq<Testimonial>)
    ensures NewestFirst(r)
    ensures forall x :: x in r <==> x in ts
    ensures multiset(r) == multiset(ts)
  {
    if ts == [] then []
    else
      assert ts == [ts[0]] + ts[1..];
      var r := InsertByDate(ts[0], SortNewestFirst(ts[1..]));
      assert forall x :: x in r <==> x in multiset(r);
      assert forall x :: x in ts <==> x in multiset(ts);
      r
  }

  /** The rows the second query selects: that wall's approved testimonials. */
  predicate IsPublicFor(wallId: Id, t: Testimonial)
  {
    t.wallId == wallId && t.isApproved
  }

  function GetPublicTestimonials(db: Database, slug: string, faults: Faults): (r: seq<Testimonial>)
    ensures NewestFirst(r)
    ensures faults.throws || faults.wallQueryFails || faults.testimonialQueryFails ==> r == []
    ensures ResolveSlug(db.walls, slug).None? ==> r == []
    ensures faults == NoFaults && ResolveSlug(db.walls, slug).Some? ==>
      multiset(r) == multiset(Filter(db.testimonials, t => IsPublicFor(ResolveSlug(db.walls, slug).value.id, t)))
    ensures forall t :: t in r ==>
      t in db.testimonials && t.isApproved &&
      ResolveSlug(db.walls, slug).Some? && t.wallId == ResolveSlug(db.walls, slug).value.id
  {
    if faults.throws || faults.wallQueryFails then []
    else
      match ResolveSlug(db.walls, slug)
      case None => []
      case Some(wall) =>
        if faults.testimonialQueryFails then []
        else
          var selected := Filter(db.testimonials, t => IsPublicFor(wall.id, t));
          SortNewestFirst(selected)
  }

  /** Every approved testimonial of the resolved wall is in the result, and nothing else. */
  lemma PublicResultIsExactlyApproved(db: Database, slug: string, wall: Wall, t: Testimonial)
    requires ResolveSlug(db.walls, slug) == Some(wall)
    ensures t in GetPublicTestimonials(db, slug, NoFaults) <==>
      t in db.testimonials && t.wallId == wall.id && t.isApproved
  {
  }

  /**
   * Once a wall is deleted, with its testimonials, its slug no longer
   * resolves and the public list for it is empty.
   */
  lemma DeletedWallIsNotPublic(db: Database, slug: string, faults: Faults)
    requires ResolveSlug(db.walls, slug).Some?
    ensures var id := ResolveSlug(db.walls, slug).value.id;
      var after := Database(Dashboard.WallsWithout(db.walls, id),
                            Dashboard.TestimonialsOutsideWall(db.testimonials, id));
      ResolveSlug(after.walls, slug).None? &&
      GetPublicTestimonials(after, slug, faults) == []
  {
  }

  /** Hiding a testimonial removes it from every public list. */
  lemma HiddenIsNotPublic(db: Database, id: Id, slug: string, faults: Faults)
    ensures var after := Database(db.walls, Dashboard.WithApproval(db.testimonials, id, false));
      forall t :: t in GetPublicTestimonials(after, slug, faults) ==> t.id != id
  {
    var ts := Dashboard.WithApproval(db.testimonials, id, false);
    forall t | t in GetPublicTestimonials(Database(db.walls, ts), slug, faults)
      ensures t.id != id
    {
      var i :| 0 <= i < |ts| && ts[i] == t;
    }
  }

  /**
   * Approving a submitted testimonial makes it appear, verbatim apart from
   * the flag, in its wall's public list.
   */
  lemma ApprovedAppearsVerbatim(db: Database, slug: string, wall: Wall, t: Testimonial)
    requires ResolveSlug(db.walls, slug) == Some(wall)
    requires t in db.testimonials && t.wallId == wall.id
    ensures t.(isApproved := true) in
      GetPublicTestimonials(Database(db.walls, Dashboard.WithApproval(db.testimonials, t.id, true)), slug, NoFaults)
  {
    var ts := Dashboard.WithApproval(db.testimonials, t.id, true);
    var i :| 0 <= i < |db.testimonials| && db.testimonials[i] == t;
    assert ts[i] == t.(isApproved := true);
    PublicResultIsExactlyApproved(Database(db.walls, ts), slug, wall, ts[i]);
  }

  /**
   * Wall `acme` holds one approved five-star review and one unapproved
   * one-star review: its public list is the approved one alone, whichever
   * of the two was inserted first.
   */
  lemma AcmeScenario()
    ensures var acme := Wall("w1", "Acme", "acme");
      var great := Testimonial("t1", "w1", "Ann", "Great!", 5, true, 2);
      var meh := Testimonial("t2", "w1", "Bob", "Meh", 1, false, 1);
      GetPublicTestimonials(Database([acme], [meh, great]), "acme", NoFaults) == [great] &&
      GetPublicTestimonials(Database([acme], [great, meh]), "acme", NoFaults) == [great]
  {
    var acme := Wall("w1", "Acme", "acme");
    var great := Testimonial("t1", "w1", "Ann", "Great!", 5, true, 2);
    var meh := Testimonial("t2", "w1", "Bob", "Meh", 1, false, 1);
    assert [acme][1..] == [];
    assert ResolveSlug([acme], "acme") == Some(acme);
    OnlyApprovedListed(acme, great, [meh, great]);
    OnlyApprovedListed(acme, great, [great, meh]);
  }

  /**
   * For any one-wall table and any two-row testimonial table in which one
   * row is an approved row of that wall and the other is unapproved, the
   * public list is that approved row alone.
   */
  lemma OnlyApprovedListed(wall: Wall, approved: Testimonial, ts: seq<Testimonial>)
    requires ResolveSlug([wall], wall.slug) == Some(wall)
    requires approved.wallId == wall.id && approved.isApproved && approved in ts
    requires |ts| == 2 && forall i :: 0 <= i < 2 ==> ts[i] == approved || !ts[i].isApproved
    requires ts[0] != ts[1]
    ensures GetPublicTestimonials(Database([wall], ts), wall.slug, NoFaults) == [approved]
  {
    var db := Database([wall], ts);
    var r := GetPublicTestimonials(db, wall.slug, NoFaults);
    PublicResultIsExactlyApproved(db, wall.slug, wall, approved);
    assert forall t :: t in r ==> t == approved;
    assert ts[1..][1..] == [];
    assert |r| == |multiset(r)|;
  }
}
