/** The two tables the application reads and changes, one row type each. */
module Rows {

  /** Row identifiers are UUID strings. */
  type Id = string

  /** A collection surface owned by one account, addressed publicly by its slug. */
  datatype Wall = Wall(id: Id, name: string, slug: string)

  /**
   * One submitted review. `createdAt` is the row's creation timestamp,
   * reduced to an integer for ordering.
   */
  datatype Testimonial = Testimonial(
    id: Id,
    wallId: Id,
    authorName: string,
    content: string,
    rating: int,
    isApproved: bool,
    createdAt: int)
}
