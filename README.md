# Parkmate booking backend: authorization and validation core

This project models the decision logic of a small parking-reservation REST
backend in Dafny. Users register and log in. Anyone may manage parking lots.
Users book time slots on a parking lot. The caller is identified by a request
header, `X-User-Id`, which holds a user id.

The model is one in-memory store, `Models.Store`, with three tables (users,
parkings, bookings), each a map keyed by the row's primary key. Every HTTP
handler is a method in module `Views`. It takes the store, the header where
the view reads one, and the body, and it returns the status code together with
what the response carries. The pure decisions inside the views are functions
in module `Auth`:

- how the header resolves to a principal: no header, a header that does not
  resolve, or a user;
- the access rule of each endpoint;
- the booking-list filter.

The serializers' validation, the "max existing id + 1" id assignment and
the create steps are in module `Serializers`. The user manager and the
database's cascades and constraints are in module `Models`. Timestamps are
integers, because the code only compares them.

Facts the model proves:

- The store invariant holds after every handler: emails are unique, and
  every booking references an existing parking and an existing user.
- A refused request (401, 403, 404, 400 or 500) leaves the store unchanged.
- New parking and booking ids are never already in use.
- Deleting a parking or a user removes exactly the bookings that depend on it.

Where the model follows the code rather than the repository's own description:

- `get_user`, `delete_user` and `get_booking` apply admin-or-owner only to a
  header that resolves to a user. No header, an empty header, a non-integer
  header or an unknown id imposes no restriction.
- First and last name are required at registration, but they may be blank.
  The model's field inherits `blank=True`.
- Registration accepts `is_admin` from the body, because it is not read-only.
  Anyone can register as an admin.
- When a partial booking update carries `parking_id` or `user_id` and passes
  validation, the save fails with an unhandled error (status 500). The
  default update assigns the bare integer to the foreign-key attribute, and
  the ORM refuses that. A truthy `parking_id` that names no parking is
  refused by validation first (400). Only `start_time` and `end_time` can
  really be updated.

Where the model deviates from the code:

- Booking creation as written never succeeds. The model records the code as
  written and then uses the evidently intended create step, in which the
  owner is the principal. See "## Findings".

## Model

| member | source | states |
|---|---|---|
| `Models.BookingsWithout` | parking/models.py:48-49 | deleting a parking or a user leaves exactly the bookings whose corresponding foreign key names some other row, each unchanged |
| `Models.Store.CreateUser` | parking/models.py:9-17 | an empty email raises and saves nothing; an email already in use is refused by the unique constraint (models.py:60); otherwise exactly one row is added under a fresh id, with model defaults for unsupplied fields |
| `Models.Store.CreateSuperuser` | parking/models.py:19-29 | is_staff and is_superuser default to True; an explicit non-True value of either raises and saves nothing, is_staff checked first; a created superuser has both flags but is_admin only if supplied |
| `Models.Store.DeleteUser` | parking/models.py:49 | the user row and exactly that user's bookings are removed; parkings untouched; invariant kept |
| `Models.Store.DeleteParking` | parking/models.py:48 | the parking row and exactly the bookings referencing it are removed; users untouched; invariant kept |
| `Models.Store.DeleteBooking` | parking/models.py:46-57 | only the booking row is removed |
| `Models.Store.InsertParking` | parking/models.py:33-38 | a row is inserted under a primary key not in use, nothing else changes |
| `Models.Store.SaveParking` | parking/models.py:33-38 | an existing parking row is overwritten, nothing else changes |
| `Models.Store.InsertBooking` | parking/models.py:46-51 | a row with a fresh primary key and resolving foreign keys is inserted; referential integrity kept |
| `Models.Store.SaveBooking` | parking/models.py:46-51 | an existing booking row is overwritten while its foreign keys still resolve |
| `Serializers.MaxOf` | parking/serializers.py:48 | the largest id of a non-empty table: a member no smaller than any other |
| `Serializers.NextId` | parking/serializers.py:47-49 | the assigned id is not in use, is 1 on an empty table, and is otherwise one above an existing id that bounds them all |
| `Serializers.ScanNextId` | parking/serializers.py:83-85 | the scan for the largest id returns exactly NextId |
| `Serializers.RegistrationFieldErrors` | parking/serializers.py:7-18 | no field error exactly when the email is non-blank and unused, both names are present and both passwords have at least 8 characters; each password key is reported exactly when its own field is too short or missing, the email key exactly when the email is missing, blank or taken |
| `Serializers.ValidateRegistration` | parking/serializers.py:6-23 | a valid body has a non-blank unused email, both names, a password of at least 8 characters and a matching confirmation; any mismatch is rejected; with all fields valid a mismatch is rejected under exactly the key password; a short password or confirmation is reported under its own key |
| `Serializers.CreateRegisteredUser` | parking/serializers.py:25-29 | the confirmation and password are dropped and create_user stores exactly email, names and is_admin under the next user id; it cannot fail on validated data |
| `Serializers.ViewHidesStaffFlags` | parking/serializers.py:32-36 | `ViewOf`, the UserSerializer field set: users that differ only in is_staff or is_superuser give the same response |
| `Serializers.ParkingFieldErrors` | parking/models.py:33-38 | no field error exactly when a create body has spots, address and price, any supplied address is non-blank and at most 255 characters, and any supplied comment is at most 255 characters; a partial update without address or comment is never refused |
| `Serializers.ParkingOf` | parking/models.py:33-38 | a valid create body gives a row with the supplied values, a NULL comment when omitted, and a non-blank address of at most 255 characters |
| `Serializers.MergeParking` | parking/views.py:174-176 | a partial update overwrites each supplied field and keeps each omitted one |
| `Serializers.CreateParking` | parking/serializers.py:39-50 | parking_id is read-only, so the new row always gets id max existing + 1 (1 on an empty table), never an id in use |
| `Serializers.BookingFieldErrors` | parking/serializers.py:53-61 | a partial update has no field error; a create has none exactly when parking_id, start_time and end_time are all present, and each missing one is reported under its own key; user_id is never required |
| `Serializers.ValidateBooking` | parking/serializers.py:64-79 | a valid body has start before end when both are present and a truthy parking_id that exists; both times present and out of order fails under exactly end_time; a missing truthy parking fails under exactly parking_id; for a full create the result is valid exactly when all three fields are present, ordered, and the parking exists or the id is 0; for a partial update it is valid exactly when no two supplied times are out of order and no supplied truthy parking_id is missing |
| `Serializers.ValidatedData` | parking/serializers.py:56-62 | validated data holds, for each supplied writable field (parking_id, user_id, start_time, end_time), exactly the supplied integer, and never a booking_id |
| `Serializers.InsertedBooking` | parking/models.py:46-51 | the database accepts a row only when every NOT NULL column is present and both foreign keys are objects, and stores exactly those values |
| `Serializers.PrepareBookingRowAsWritten` | parking/serializers.py:81-100 | as written, the row reaching the INSERT never has user_id, so the database refuses every booking; an unknown parking aborts first |
| `Serializers.PrepareBookingRow` | parking/serializers.py:81-100 | as intended, the row has id NextId, the looked-up parking, the principal as owner whatever user_id the body held, and the body's times |
| `Serializers.CreateBooking` | parking/serializers.py:81-100 | on validated data, a booking owned by the principal is stored under id max existing + 1, unless parking_id 0 names no parking, which ends the request unhandled with the store unchanged |
| `Serializers.MergeBookingTimes` | parking/views.py:297-299 | an update rewrites only the supplied times; parking and owner stay |
| `Serializers.OneTimeUpdateCanInvertBooking` | parking/serializers.py:68 | for every parking table, stored booking and time, a partial update carrying only start_time or only end_time passes validation, and it inverts the booking whenever the new time crosses the stored other one |
| `Serializers.ZeroParkingIdSkipsLookup` | parking/serializers.py:72-77 | a falsy parking_id of 0 is never looked up, so it passes validation whatever the table holds |
| `Serializers.AsWrittenRowNeverInserts` | parking/serializers.py:94-98 | a row without user_id is always refused by the database |
| `Auth.ParseInt` | parking/views.py:94 | a parsed header is a digit string with an optional leading sign; a minus gives a non-positive value, otherwise non-negative; a plain digit string reads as its decimal value |
| `Auth.ParseIntRejects` | parking/views.py:94 | int() fails exactly on the empty text and on text with a non-digit other than a leading sign, or a bare sign |
| `Auth.ParseDecimal` | parking/views.py:94 | int() reads back the decimal rendering of every id |
| `Auth.DecimalNatDigits` | parking/views.py:94 | a decimal rendering is a non-empty digit string with no sign whose value is the number |
| `Auth.Resolve` | parking/views.py:91-102 | no header or an empty one is anonymous; a principal is resolved only to an existing user whose id the header parses to, with that user's admin flag; otherwise, when the header fails to parse or names no user, it is unresolved |
| `Auth.ResolveOwnId` | parking/views.py:91-94 | a header holding an existing user's id resolves to that user, with that user's admin flag |
| `Auth.ResolveUnknownId` | parking/views.py:101-102 | a header holding an id that is not a user resolves to nobody |
| `Auth.NonNumericHeaderUnresolved` | parking/views.py:101-102 | every header int() cannot read resolves to nobody, whoever is in the table |
| `Auth.OwnerAccess` | parking/views.py:91-102 | the rule get_user, delete_user and get_booking (views.py:250-263) share: for a resolved principal, access is allowed exactly when the principal is an admin or the owner, and 403 otherwise; no header or an unresolvable one never restricts |
| `Auth.BookingWriteAccess` | parking/views.py:278-295 | for a resolved principal, admin-or-owner, and 403 otherwise; an unresolvable header is 401; no header never restricts |
| `Auth.BookingCreator` | parking/views.py:202-217 | only a resolved principal may create a booking and is its owner; no header or an unresolvable one is 401 |
| `Auth.ReadWriteDifferOnlyWhenUnresolved` | parking/views.py:262-263 | reading and writing a booking are decided alike except for an unresolvable header |
| `Auth.VisibleBookings` | parking/views.py:224-236 | an admin or a caller without header sees every booking; a non-admin sees exactly their own; an unresolvable header sees none; nothing shown is altered |
| `Auth.VisibleAgreesWithRead` | parking/views.py:229-232 | a resolved principal lists a booking exactly when the single-booking read lets them have it |
| `Auth.UnresolvedReadsWhatItCannotList` | parking/views.py:233-234 | an unresolvable header lists no booking, yet get_booking (views.py:262-263) still lets it read every one |
| `Views.Register` | parking/views.py:22-36 | 201 exactly when the body validates, creating one user under the next id and responding with that user's id, email, names and admin flag; otherwise 400 with the failing keys and the store unchanged |
| `Views.Login` | parking/views.py:39-66 | a missing or empty email or password is 400 whatever the credentials; otherwise 200 exactly when the credentials check succeeds and 401 when it fails |
| `Views.GetUser` | parking/views.py:81-105 | an unknown target is 404 before any header is read; 403 exactly when the user rule refuses; otherwise 200 with the public fields of the user |
| `Views.DeleteUser` | parking/views.py:108-132 | 404 exactly for an unknown target; 403 exactly when the user rule refuses; 200 removes the user and exactly their bookings; anything but 200 changes nothing |
| `Views.ListParkings` | parking/views.py:150-153 | always 200 with every parking |
| `Views.PostParking` | parking/views.py:144-149 | 201 exactly when the body validates, with the new id max existing + 1 whatever id the body names; otherwise 400 with the failing keys and nothing stored |
| `Views.GetParking` | parking/views.py:156-164 | 404 for an unknown id, otherwise 200 with that parking; no header is read |
| `Views.UpdateParking` | parking/views.py:167-178 | 404 for an unknown id; 400 exactly when a supplied field is invalid, changing nothing; otherwise only that parking changes, to the merge of the supplied fields |
| `Views.DeleteParking` | parking/views.py:181-189 | 404 exactly for an unknown id; 200 removes the parking and exactly the bookings referencing it |
| `Views.PostBooking` | parking/views.py:201-223 | 401 unless the header names a user; 400 with the validation keys; 500 when parking 0 is missing; 201 stores one booking owned by the principal, with start before end, under id max existing + 1; any other status changes nothing |
| `Views.ListBookings` | parking/views.py:224-239 | 200 with exactly the bookings the header lets the caller see; no header gives all bookings |
| `Views.GetBooking` | parking/views.py:242-266 | 404 for an unknown booking; 403 exactly when the read rule refuses; otherwise 200 with the booking |
| `Views.UpdateBooking` | parking/views.py:269-301 | 404, then 401 or 403 from the write rule, then 400 from validation, then 500 for a body naming parking_id or user_id; 200 only rewrites that booking's times; anything but 200 changes nothing |
| `Views.DeleteBooking` | parking/views.py:304-332 | 404 for an unknown booking, then 401 or 403 from the write rule; 200 removes exactly that booking; anything but 200 changes nothing |

## Left out

- `home` renders a template, and `logout_view` always returns 200 and changes nothing. Neither makes a decision.
- Password hashing (`set_password`) and `authenticate` are library code. Login takes the credential check's outcome as a parameter, and a user row holds no password.
- `normalize_email` is library code. The model stores the email as given.
- The email format check, the library-defined maximum lengths of email and names, the whitespace trimming of character fields, and the backend-dependent integer range checks are not modelled. Neither are the type-coercion errors for values of the wrong JSON type.
- `date_joined` is not modelled, because it needs a clock.
- Ids, the integer a header parses to, and times are unbounded integers. Times are compared only with `<`.
- Python's `int()` also accepts surrounding whitespace, underscores between digits and non-ASCII digits. `Auth.ParseInt` accepts an optional sign and ASCII digits only.
- User ids come from the database's sequence. The model keeps a counter, `nextUserId`, that is ahead of every id in use and is never reused.
- Concurrency is left out, and with it the race between two creates that read the same maximum id. Each handler is atomic.
- Response bodies are modelled only as the records they carry. Error messages and the nested read-only `parking`/`user` representations are not.
- The order of list results is not modelled. Lists are maps keyed by id.
- Routing (`parking/urls.py`) and the framework's request and response plumbing are not part of this model.

## Findings

| source | as written | input that shows it | evidently intended | confidence | as-written member | corrected member |
|---|---|---|---|---|---|---|
| parking/serializers.py:94-98 | `create` stores the request principal under `user_id` and then pops `user_id` unconditionally, so the INSERT has no owner and the NOT NULL foreign key makes the database refuse it (status 500) | POST bookings/ with header `X-User-Id: 5` (user 5 exists), body {parking_id: 1, start_time: 10, end_time: 12}, parking 1 exists | the booking is stored with owner user 5 and status 201; only a `user_id` from the body is discarded | high; not executed | `Serializers.PrepareBookingRowAsWritten` | `Serializers.PrepareBookingRow` |
