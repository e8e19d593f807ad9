# Testimonial wall: a Dafny model of its client-side logic

The application lets account holders create "walls", collect testimonials
through a public link, moderate them on a dashboard, style each wall and
show the approved testimonials publicly. Storage and authentication belong
to a hosted backend. This project models the logic that sits on the client
side of those calls:

- `dashboard.dfy` (module `Dashboard`): the moderation dashboard's two
  local tables, `walls` and `testimonials`. It covers the initial fetch and
  the three handlers that change the tables once the backend reports
  success: delete a wall (which cascades to its testimonials), delete a
  testimonial, and toggle approval. It also covers the per-wall review
  list and its count. The transitions are pure functions. The component is
  a class whose methods apply them.
- `slug.dfy` (module `Slug`): slug normalisation,
  `slug.toLowerCase().replace(/\s+/g, '-')`. It is proved equal to a
  per-character reference definition, free of whitespace, order-preserving
  and idempotent.
- `create_wall.dfy` (module `CreateWall`): the "create wall" dialog's
  submit handler and its three outcomes.
- `style_editor.dfy` (module `StyleEditor`): the style settings record, its
  merge with defaults and stored settings, the field setters, the radius
  slider's round trip, and the save guard.
- `public_query.dfy` (module `PublicQuery`): `getPublicTestimonials` as a
  pure function over a snapshot of the two tables. It returns the approved
  testimonials of the one wall the slug names, newest first, and `[]` on
  every failure.
- `collections.dfy` (module `Collections`): `filter`, `map` and counting
  over sequences, with the lemmas the modules above share.
- `rows.dfy` and `basics.dfy`: the row types and the `Option`/`Outcome`
  wrappers.

Backend calls are replaced by their replies, passed as parameters: an
`Outcome` (`Ok` or `Err(message)`), or an `Option` of the returned rows.
The answer to a `confirm()` dialog is a `bool` parameter. An `alert()` is
returned as a value. Each handler runs as one atomic step.

The style settings the editor holds are three string fields (`theme`,
`accent_color`, and `border_radius` such as `"1.5rem"`), and the model
keeps them as strings. The row types keep only the columns the
modelled logic reads: `author_role` (on testimonials), `user_id` (on walls)
and `settings` (on walls) are left out of `Wall` and `Testimonial`.

## Model

| member | source | states |
|---|---|---|
| `Collections.Filter` | src/app/dashboard/page.tsx:95 | `filter` keeps exactly the elements satisfying the predicate, in their original order (a subsequence), and as many as satisfy it |
| `Collections.Map` | src/app/dashboard/page.tsx:113-115 | `map` keeps the length and transforms each element in place |
| `Dashboard.WallsWithout` | src/app/dashboard/page.tsx:95 | after deleting wall `id`, no wall with that id remains, every other wall remains in order, and the list shrinks by exactly the number of walls with that id |
| `Dashboard.TestimonialsOutsideWall` | src/app/dashboard/page.tsx:96 | the cascade removes exactly the testimonials with `wall_id == id` and keeps all others in order |
| `Dashboard.TestimonialsWithout` | src/app/dashboard/page.tsx:103 | deleting testimonial `id` removes exactly the rows with that id and keeps the rest unchanged and in order |
| `Dashboard.WithApproval` | src/app/dashboard/page.tsx:113-115 | rows with that id get the new `is_approved`; every other field of every row and every other row is unchanged; the length is kept |
| `Dashboard.ReviewsFor` | src/app/dashboard/page.tsx:238 | the list shown under a wall holds exactly that wall's testimonials, in table order |
| `Dashboard.ReviewCount` | src/app/dashboard/page.tsx:228 | the "N Reviews" figure equals the number of testimonials whose `wall_id` is that wall's id |
| `Dashboard.DeletedWallHasNoReviews` | src/app/dashboard/page.tsx:96 | after the cascade, the deleted wall has no reviews and its count is 0 |
| `Dashboard.DeleteWallKeepsOtherReviews` | src/app/dashboard/page.tsx:96 | deleting one wall leaves every other wall's review list exactly as it was |
| `Dashboard.ApprovalKeepsReviewLists` | src/app/dashboard/page.tsx:113-115 | toggling approval changes the flag in place in each wall's list and leaves every review count unchanged |
| `Dashboard.ToggleTwiceRestores` | src/app/dashboard/page.tsx:106-115 | when the caller passes the row's current flag, as the button does, two successful toggles restore the original table |
| `Dashboard.DashboardState.constructor` | src/app/dashboard/page.tsx:40-43 | the dashboard starts with empty tables, `loading` set and `hasFetched` clear |
| `Dashboard.DashboardState.FetchData` | src/app/dashboard/page.tsx:53-77 | with no user nothing changes; otherwise the walls are replaced when the walls query returned data, the testimonials only when that list is non-empty and the testimonials query returned data, and `loading` ends false |
| `Dashboard.DashboardState.OnMount` | src/app/dashboard/page.tsx:79-84 | the initial fetch happens only while `hasFetched` is clear, and sets it |
| `Dashboard.DashboardState.DeleteWall` | src/app/dashboard/page.tsx:91-98 | the delete is sent only on confirmation; on success both tables take the filtered values; on cancel or error both tables are unchanged |
| `Dashboard.DashboardState.DeleteTestimonial` | src/app/dashboard/page.tsx:100-104 | the delete is sent only on confirmation; the testimonials change only on success; the walls never change |
| `Dashboard.DashboardState.ToggleApproval` | src/app/dashboard/page.tsx:106-117 | the update asks for `!current`; on success the table takes the new flag on that id's rows; on error nothing changes |
| `Slug.ToLower` | src/components/CreateWall.tsx:31 | lower-casing yields no upper-case letter, keeps whitespace as whitespace, and leaves non-letters alone |
| `Slug.LowerAll` | src/components/CreateWall.tsx:31 | `toLowerCase` keeps the length and lower-cases each character in place |
| `Slug.ReplaceSpaceRuns` | src/components/CreateWall.tsx:31 | the replacement leaves no whitespace, and every output character is `-` or a character of the input |
| `Slug.Normalise` | src/components/CreateWall.tsx:31 | a normalised slug contains no whitespace and no upper-case letter |
| `Slug.NormaliseMatchesSpec` | src/components/CreateWall.tsx:31 | normalisation equals the per-character reading: a whitespace character that starts a run gives one `-`, one that continues a run gives nothing, any other character gives its lower case |
| `Slug.NormaliseHasNoSpace` | src/components/CreateWall.tsx:31 | no character of a normalised slug is whitespace |
| `Slug.NormaliseKeepsCharacters` | src/components/CreateWall.tsx:31 | leaving out the dashes, the slug is the input's characters other than whitespace (`Slug.IsSpace`, the ECMAScript `\s` class) and `-`, lower-cased and in the same order |
| `Slug.NormaliseIdempotent` | src/components/CreateWall.tsx:31 | normalising a normalised slug gives it back unchanged |
| `Slug.Example` | src/components/CreateWall.tsx:31 | `"A  b"` becomes `"a-b"`: a run of two spaces gives one dash |
| `CreateWall.InsertFor` | src/components/CreateWall.tsx:28-34 | the inserted row keeps the name and user id, and its slug is normalised: no whitespace, no upper case, a fixed point of normalisation |
| `CreateWall.CreateWallForm.constructor` | src/components/CreateWall.tsx:8-11 | the dialog starts closed and idle, with empty name and slug |
| `CreateWall.CreateWallForm.HandleCreate` | src/components/CreateWall.tsx:13-45 | with no user nothing is inserted, the login alert is shown and the fields and dialog are unchanged; on an insert error its message is shown and the fields are kept; on success name and slug are reset, the dialog closes and `onCreated` runs once; `loading` ends false on every path |
| `StyleEditor.Overlay` | src/components/StyleEditor.tsx:20 | the spread merge takes each field present in the stored settings and keeps every other field |
| `StyleEditor.OverlayIdempotent` | src/components/StyleEditor.tsx:18-22 | merging the same stored settings twice is the same as merging them once |
| `StyleEditor.InitialSettings` | src/components/StyleEditor.tsx:9-14 | each initial field comes from `initialSettings` when present, and otherwise is `light`, `#2563eb` or `1.5rem` |
| `StyleEditor.MountEffectKeepsInitial` | src/components/StyleEditor.tsx:18-22 | running the effect with the same `initialSettings` the state was built from leaves the settings unchanged |
| `StyleEditor.RadiusFor` | src/components/StyleEditor.tsx:99 | the radius setter stores the slider value followed by `rem`, and `parseFloat` of it gives the slider position back |
| `StyleEditor.ParseRadius` | src/components/StyleEditor.tsx:98 | `parseFloat(settings.border_radius)` read as a slider position: when it gives position `p`, `p` is one of the half steps 0 to 3 and the radius starts with the slider text of `p` (for example `1.5` for 3, `2` for 4); a whole-number position is never followed by `.5` |
| `StyleEditor.ParseRadiusRejectsOtherNumbers` | src/components/StyleEditor.tsx:98 | radii such as `12rem`, `1.55rem`, `1e1rem`, `1.5e1rem` or `4rem`, whose `parseFloat` is no slider position, read as none; `1.rem` reads as 1 |
| `StyleEditor.DefaultRadiusStep` | src/components/StyleEditor.tsx:98 | the default radius `1.5rem` puts the slider at 1.5 |
| `StyleEditor.StyleEditorState.constructor` | src/components/StyleEditor.tsx:9-16 | the editor starts with the merged initial settings and not saving |
| `StyleEditor.StyleEditorState.SyncInitialSettings` | src/components/StyleEditor.tsx:18-22 | the effect merges present `initialSettings` into the current settings and does nothing when they are absent |
| `StyleEditor.StyleEditorState.SetTheme` | src/components/StyleEditor.tsx:59 | the theme setter changes the theme and no other field |
| `StyleEditor.StyleEditorState.SetAccentColor` | src/components/StyleEditor.tsx:77 | the accent setter changes the accent colour and no other field |
| `StyleEditor.StyleEditorState.SetBorderRadius` | src/components/StyleEditor.tsx:99 | the radius setter changes only the radius, to the slider value followed by `rem` |
| `StyleEditor.StyleEditorState.SaveStyles` | src/components/StyleEditor.tsx:24-43 | with no wall id, or an empty one (`!wallId`, the predicate `StyleEditor.LacksWallId`), nothing is sent and `saving` is untouched; otherwise the current settings are sent, `onUpdate` runs only on success, and `saving` ends false |
| `PublicQuery.ResolveSlug` | src/lib/supabase.ts:23-32 | `.single()` yields a wall exactly when one wall has the slug, and then it is that wall |
| `PublicQuery.InsertByDate` | src/lib/supabase.ts:41 | inserting into a newest-first list keeps it newest first and adds exactly that row |
| `PublicQuery.SortNewestFirst` | src/lib/supabase.ts:41 | the ordering is a permutation of its input, sorted by `created_at`, non-increasing |
| `PublicQuery.GetPublicTestimonials` | src/lib/supabase.ts:19-55 | the result is newest first; any query error, any exception, or a slug that does not name exactly one wall gives `[]`; otherwise it is a permutation of that wall's approved testimonials (the two `.eq` filters, the predicate `PublicQuery.IsPublicFor`) |
| `PublicQuery.PublicResultIsExactlyApproved` | src/lib/supabase.ts:36-40 | a row is in the public result exactly when it is an approved testimonial of the resolved wall |
| `PublicQuery.DeletedWallIsNotPublic` | src/lib/supabase.ts:23-32 | once a wall and its testimonials are deleted, its slug no longer resolves and its public list is empty |
| `PublicQuery.HiddenIsNotPublic` | src/lib/supabase.ts:36-40 | a testimonial whose approval was withdrawn appears in no public list |
| `PublicQuery.ApprovedAppearsVerbatim` | src/lib/supabase.ts:36-41 | approving a testimonial of the wall makes it appear in that wall's public list with the same content, rating and author |
| `PublicQuery.AcmeScenario` | src/lib/supabase.ts:36-41 | for wall `acme`, with one approved and one unapproved review, the public list is the approved one alone, in either insertion order |

## Left out

- Authentication and sessions: the session check and redirect, sign-out, and the user lookup. The user is reduced to "signed in or not" (`FetchData`) or an optional id (`HandleCreate`).
- Dashboard.DashboardState.FetchData: the walls query's filter by owner and its ordering, and the testimonials query's `in` filter, run in the backend. Their replies are parameters, so the model does not check that the replies match those filters.
- Dashboard.DashboardState.FetchData: `loading` is true only while the handler awaits the backend. With each handler one atomic step, that intermediate state is not observable, and only the final `loading == false` is stated.
- Asynchronous interleaving of React state updates, re-renders, and the `useEffect` dependency tracking. `SyncInitialSettings` is a method the caller runs whenever `initialSettings` changes.
- All JSX rendering, CSS, and the dialog buttons and input `onChange` handlers of the create dialog (`CreateWall.tsx` lines 50, 59, 73, 84). Each of these assigns one field directly.
- `console` logging in `saveStyles` and `getPublicTestimonials`.
- Slug.ToLower: lower-cases only the ASCII letters. `toLowerCase` on other scripts (and its length-changing cases) is not modelled. The whitespace class is the full ECMAScript `\s` set.
- PublicQuery.SortNewestFirst: the database leaves the order of rows with equal `created_at` unspecified. The model picks one order, and the contracts state only the non-increasing order and the permutation.
- StyleEditor.Overlay: stored settings are an open JSON object in the source. The model keeps the three string fields the editor uses, so extra keys (carried along by the spread and saved), non-string values, and keys present with value `undefined` are not modelled.
- StyleEditor.ParseRadius: `parseFloat` is modelled only for radii made of one digit, optionally followed by `.`, `.5` or `.0`, and then by nothing or a character other than a digit, `e` or `E`; other radii, and numbers that are not slider positions, read as `None`. The slider's `min`, `max` and `step` limit its values to the half steps 0 to 3, which is the `RadiusStep` type.
- The Google review sync, the embed snippet, the theme toggle, the public submission page, the wall and widget pages and the cross-frame resize handshake are not part of this model.
