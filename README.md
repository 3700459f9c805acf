# Hotel booking front end: a Dafny model of its page logic

The hotel booking interface is a React application over a JSON REST store.
It has room browsing, bookings, user and admin sign-in, and a
room-management console. This project models the sequential logic inside
its event handlers and its store client, and proves properties of that
model:

- the room console's amenities text format and its room list operations
  (`AdminConsole`, `Amenities`);
- the bookings list's role filter, room enrichment, delete and inline edit
  (`BookingsList`);
- the booking form's two-stage validation and the record it sends
  (`BookingForm`);
- the session with its two slots mirrored into browser storage (`Auth`);
- sign-up and the two logins over a store seen as sequences of records
  (`Api`).

Modelling choices:

- JavaScript objects that the pages spread and merge are `Json.Record`, a
  map from field names to values. `{...a, ...b}` is `a + b` and `a.f` is
  `Get(a, "f")`, where `None` stands for `undefined`.
- React component state is a class whose fields are the `useState`
  variables. Each handler is a method, and its contract gives the whole new
  state in terms of the old one.
- In the page handlers, the answer of each awaited store call is a `Reply`
  parameter, either `Ok(data)` or `Err(message)`. A confirmation dialog is
  a boolean parameter.
- In `Api`, the two logins take the whole queried collection, or the error
  that reached it, as a `Reply<seq<Record>>`. They compute the query's
  answer from it themselves.
- Sign-up works on the store's own `users` collection. Each of its two
  awaited calls fails exactly when its parameter `lookupFault` or
  `postFault` holds an error message. The lookup's answer is `Query` over
  `users`. The posted record is `userData` with the store-assigned id
  `newId`.
- `Seqs` holds `filter`, `map` and `find` with their characterisations.
  `SelectsInOrder(r, s, p)` says that `r` holds exactly the elements of `s`
  that satisfy `p`, in their original order.

Two behaviours are modelled as the code has them:

- `if (editingId)` is a truthiness test, so a room whose id is `0` is saved
  through the create path (`AdminConsole.Editing`).
- The update body of an edited booking is built by spreading the enriched
  list entry. It therefore sends the entry's `room` object back to the store
  (`BookingsList.SaveBodyCarriesRoom`).

## Model

| member | source | states |
|---|---|---|
| `Amenities.Split` | src/pages/Admin.jsx:62 | `split(',')` gives at least one piece and no piece contains the separator |
| `Amenities.SplitThenJoin` | src/pages/Admin.jsx:62 | joining the pieces of a split with the separator gives the original text back |
| `Amenities.TrimStartSpec` | src/pages/Admin.jsx:63 | trimming the start leaves the suffix from the first non-whitespace character; everything dropped is whitespace |
| `Amenities.TrimEndSpec` | src/pages/Admin.jsx:63 | trimming the end leaves the prefix up to the last non-whitespace character; everything dropped is whitespace |
| `Amenities.Trim` | src/pages/Admin.jsx:63 | the trimmed text has no whitespace at either end, and already-trimmed text is unchanged |
| `Amenities.Join` | src/pages/Admin.jsx:101 | `join` keeps the pieces in order with one glue between each two: the text's length is the pieces' total plus one glue per gap, and it starts with the first piece |
| `Amenities.Render` | src/pages/Admin.jsx:101 | the form text of an amenities list is the names separated by `', '`: their total length plus two characters per gap, starting with the first name |
| `Amenities.Parse` | src/pages/Admin.jsx:61-64 | the parsed list is exactly the non-empty pieces among the trimmed comma-separated pieces, in order |
| `Amenities.ParsedAreWellFormed` | src/pages/Admin.jsx:61-64 | every parsed amenity is non-empty, trimmed and comma-free |
| `Amenities.RenderThenParse` | src/pages/Admin.jsx:61-64 | a list of well-formed amenities joined with `', '` parses back to the same list; the empty list renders as `''` and parses to `[]` |
| `Amenities.ParseRenderParse` | src/pages/Admin.jsx:61-64 | parsing is stable: rendering a parsed list and parsing again gives the same list |
| `AdminConsole.WithField` | src/pages/Admin.jsx:36-41 | the named input takes the new text; every other input keeps its value |
| `AdminConsole.ToRoomData` | src/pages/Admin.jsx:66-74 | the submitted room's amenities are all well-formed |
| `AdminConsole.FormOf` | src/pages/Admin.jsx:94-102 | (definition) the form shows the room's fields, its amenities list rendered with `', '`, and `''` when the room has no list; what this form submits is stated by `EditThenSubmit` |
| `AdminConsole.EditThenSubmit` | src/pages/Admin.jsx:93-105 | editing a room and saving the untouched form sends the room's own fields and amenities list; a missing list becomes `[]` |
| `AdminConsole.Editing` | src/pages/Admin.jsx:77 | (definition) the truthiness test `if (editingId)`: the update path is taken only for a present, non-zero id, so no id and the id `0` both create |
| `AdminConsole.ReplaceRoom` | src/pages/Admin.jsx:77-80 | the update path keeps the length; rooms with the edited id become the stored room, all others are unchanged in place |
| `AdminConsole.RemoveRoom` | src/pages/Admin.jsx:114 | delete keeps exactly the rooms with another id, in their original order |
| `AdminConsole.Console.constructor` | src/pages/Admin.jsx:7-19 | empty room list, loading, form hidden, nothing being edited, all inputs empty |
| `AdminConsole.Console.FetchRooms` | src/pages/Admin.jsx:25-34 | fetched rooms replace the list, a failed fetch keeps it; loading ends either way |
| `AdminConsole.Console.HandleInputChange` | src/pages/Admin.jsx:36-41 | only the form changes, by `WithField` |
| `AdminConsole.Console.ResetForm` | src/pages/Admin.jsx:43-55 | all inputs `''`, `editingId` null, form hidden; rooms untouched |
| `AdminConsole.Console.ToggleForm` | src/pages/Admin.jsx:148 | the form's visibility flips |
| `AdminConsole.Console.HandleEdit` | src/pages/Admin.jsx:93-105 | the form shows the room, amenities joined with `', '` or `''` when missing; `editingId` is the room's id; the form is shown |
| `AdminConsole.Console.HandleSubmit` | src/pages/Admin.jsx:57-91 | sends an update of the edited id when `editingId` is truthy, otherwise a create, with the form's parsed room; on success the update path replaces by id and the create path appends exactly the stored room, then the form resets; on failure rooms, form, `editingId` and visibility are unchanged |
| `AdminConsole.Console.HandleDelete` | src/pages/Admin.jsx:107-119 | the store is asked only after confirmation; the list loses exactly that id's rooms only when the delete succeeds |
| `BookingsList.Visible` | src/pages/BookingsList.jsx:26-32 | a signed-in non-admin sees exactly the bookings whose `userId` equals the user's id, in the fetched order; an admin or an anonymous visitor sees the fetched list |
| `BookingsList.Enrich` | src/pages/BookingsList.jsx:34-45 | same length and order; each entry keeps its fields and gains `room`, which is the looked-up room or `null` when the lookup failed |
| `BookingsList.RemoveBooking` | src/pages/BookingsList.jsx:63 | keeps exactly the bookings with another id, in order |
| `BookingsList.EditFormOf` | src/pages/BookingsList.jsx:70-77 | the edit form holds exactly the booking's `guestName`, `checkIn` and `checkOut` |
| `BookingsList.Stored` | src/pages/BookingsList.jsx:87 | the booking that `find` returns is the first one with that id, and `{}` is spread when no booking has it |
| `BookingsList.SaveBody` | src/pages/BookingsList.jsx:86-89 | the request body has the stored booking's fields, overwritten only by the edit form's fields |
| `BookingsList.SaveBodyKeepsOtherFields` | src/pages/BookingsList.jsx:86-89 | with a form from the edit inputs, every field other than the three edited ones is that of the first booking with the id |
| `BookingsList.SaveBodyCarriesRoom` | src/pages/BookingsList.jsx:86-89 | the body also carries the enriched entry's `room` field |
| `BookingsList.MergeSaved` | src/pages/BookingsList.jsx:91-95 | same length; the booking with the id is merged with the store's answer (its fields win); the others are unchanged |
| `BookingsList.Page.constructor` | src/pages/BookingsList.jsx:12-16 | no bookings, loading, no error, nothing being edited, empty edit form |
| `BookingsList.Page.FetchBookings` | src/pages/BookingsList.jsx:22-54 | on success the list is the enriched role-filtered list; on failure the error is "Failed to load bookings." and the list is kept; loading ends |
| `BookingsList.Page.HandleDelete` | src/pages/BookingsList.jsx:56-68 | the store is asked only after confirmation; the booking is dropped only when the delete succeeds |
| `BookingsList.Page.HandleEdit` | src/pages/BookingsList.jsx:70-77 | `editingId` is the booking's id and the edit form is `EditFormOf` the booking |
| `BookingsList.Page.HandleEditField` | src/pages/BookingsList.jsx:161-190 | one edit input changes its field of the edit form and nothing else |
| `BookingsList.Page.HandleCancelEdit` | src/pages/BookingsList.jsx:79-82 | `editingId` null and edit form empty |
| `BookingsList.Page.HandleSaveEdit` | src/pages/BookingsList.jsx:84-102 | sends `SaveBody`; on success merges by id and ends editing; on failure bookings and edit state are unchanged |
| `BookingForm.Validate` | src/pages/Booking.jsx:54-64 | (definition) the two checks in source order: first the missing-field message, then the date-order message; its behaviour is stated by the three lemmas below |
| `BookingForm.ValidateAccepts` | src/pages/Booking.jsx:54-64 | validation passes exactly when all three fields are filled and check-in is strictly before check-out |
| `BookingForm.MissingFieldsFirst` | src/pages/Booking.jsx:54-58 | any empty field gives "Please fill in all fields.", whatever the dates |
| `BookingForm.DatesOutOfOrderRejected` | src/pages/Booking.jsx:60-64 | a complete form with check-in on or after check-out gives "Check-out date must be after check-in date." |
| `BookingForm.BookingRecord` | src/pages/Booking.jsx:68-74 | the record has the route's room id, the three form fields unchanged, and `userId` equal to the user's id, absent when nobody is signed in |
| `BookingForm.ValidatedBookingIsSound` | src/pages/Booking.jsx:54-76 | a booking built after validation has a non-empty guest name and check-in strictly before check-out |
| `BookingForm.Page.constructor` | src/pages/Booking.jsx:11-22 | empty form, no room yet, loading, not submitting, no error, no success |
| `BookingForm.Page.LoadRoom` | src/pages/Booking.jsx:26-36 | the fetched room is kept, or the error is "Failed to load room details."; loading ends |
| `BookingForm.Page.HandleChange` | src/pages/Booking.jsx:41-46 | only the changed input's field changes |
| `BookingForm.Page.HandleSubmit` | src/pages/Booking.jsx:48-89 | a booking is sent exactly when validation passes, and it is `BookingRecord`; a validation failure sets that error; success is set only when the store accepts; a store failure sets "Failed to create booking. Please try again."; the old error is cleared; `submitting` is false on every exit |
| `Auth.LoggedOut` | src/contexts/AuthContext.jsx:45-46 | logout storage is the old storage without the `'user'` and `'admin'` keys |
| `Auth.LogoutIdempotent` | src/contexts/AuthContext.jsx:42-47 | logging out twice leaves storage as logging out once, with both keys absent |
| `Auth.Provider.Mirrored` | src/contexts/AuthContext.jsx:19-47 | (invariant) each slot is non-null exactly when storage holds its key, and then holds the stored record |
| `Auth.Provider.Valid` | src/contexts/AuthContext.jsx:19-47 | (invariant) once loading has ended, memory mirrors storage; the constructor sets it up, and every handler below preserves it |
| `Auth.Provider.constructor` | src/contexts/AuthContext.jsx:13-16 | both slots null, loading |
| `Auth.Provider.Restore` | src/contexts/AuthContext.jsx:19-30 | each slot takes the stored entry when present and otherwise keeps its value; loading ends; from the initial empty slots, memory then mirrors storage |
| `Auth.Provider.Login` | src/contexts/AuthContext.jsx:32-35 | sets `user` and the `'user'` entry; `admin` unchanged; the mirror invariant is preserved |
| `Auth.Provider.AdminLogin` | src/contexts/AuthContext.jsx:37-40 | sets `admin` and the `'admin'` entry; `user` unchanged; the mirror invariant is preserved |
| `Auth.Provider.Logout` | src/contexts/AuthContext.jsx:42-47 | both slots null, both keys removed, other keys kept; memory mirrors storage afterwards |
| `Auth.Provider.IsAuthenticated` | src/contexts/AuthContext.jsx:56 | holds iff `user` is non-null; once the session is restored and the invariant holds, iff storage has a `'user'` entry |
| `Auth.Provider.IsAdmin` | src/contexts/AuthContext.jsx:57 | holds iff `admin` is non-null; once the session is restored and the invariant holds, iff storage has an `'admin'` entry |
| `Api.Query` | src/services/api.js:200 | a query answer is exactly the matching records in store order, and is empty iff nothing matches |
| `Api.FirstMatch` | src/services/api.js:200-204 | a store error passes through; otherwise the result is the first matching record, or the given failure iff none matches |
| `Api.LoginUser` | src/services/api.js:198-209 | succeeds iff some user has both the email and the password, and returns the first such user; otherwise "Invalid email or password"; a store error is re-raised unchanged |
| `Api.LoginAdmin` | src/services/api.js:217-228 | succeeds iff some admin has both the username and the password, and returns the first such admin; otherwise "Invalid username or password"; a store error is re-raised unchanged |
| `Api.LoginFailuresDistinct` | src/services/api.js:202-221 | the two login failure messages differ |
| `Api.Store.constructor` | src/services/api.js:3-12 | the store client starts over the given `users` collection |
| `Api.Store.SignupUser` | src/services/api.js:175-190 | a failed lookup or post re-raises its error; a taken email fails with "User with this email already exists"; in these cases users are unchanged; otherwise exactly the new user is appended and returned, and afterwards exactly one user has that email |

## Left out

- Rendering is not modelled: JSX, layout and styling. Navbar, RoomCard,
  Rooms, RoomDetails, Home, Profile, AdminLogin and the route table in App
  are presentation or plumbing and are not part of this model.
- HTTP is not modelled: axios, the base URL and async/await. Awaited calls
  become parameters, as described under the modelling choices.
- The CRUD wrappers getRooms, getRoomById, createRoom, updateRoom,
  deleteRoom, getBookings, getBookingById, createBooking, updateBooking and
  deleteBooking have no members of their own. Each one returns the response
  data or re-throws the error, which is the identity on a `Reply`. They
  appear only as the `Reply` parameters of the handlers.
- `Promise.all` concurrency is not modelled. Room lookups are one
  order-preserving map, and `lookup` is the store's answer for each room id.
- `confirm` and `alert` dialogs are not modelled beyond a boolean parameter
  for the confirmation. `console.error` and the `setTimeout` redirect after
  a booking are also left out.
- Numbers are simplified. `parseFloat`, `parseInt` and `toString` are left
  out: price and capacity stay as the form's text. The route's room id is
  taken as an already parsed integer, and JSON numbers are integers.
- Dates are day numbers. Date-string parsing, invalid dates (NaN
  comparisons) and `toLocaleDateString` are not modelled.
- Browser storage holds records directly. JSON serialisation is not
  modelled, and any stored entry counts as present on restore.
- `trim` removes a fixed set of whitespace characters, not every Unicode
  space.
- The store is simplified. Queries are exact-equality filters, and the URL
  interpolation of query values is not modelled. Sign-up compares the
  `email` fields as values, so a missing email matches a missing email. The
  store's id assignment on a post is the parameter `newId`.
- Strict equality is treated as value equality. This is exact for the
  primitive ids being compared.
- React details are not modelled: state updates take effect at once, with
  no batching, and `useAuth` does not throw outside a provider.
- Credential security (plaintext passwords) is not a modelled property.
