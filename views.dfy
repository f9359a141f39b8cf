/**
 * The request handlers, one method per endpoint and verb. Each takes the
 * store, the X-User-Id header where the view reads it, and the body, and
 * returns the response status with what the response carries.
 */
module Views {
  import opened Wrappers
  import opened Models
  import opened Serializers
  import opened Auth

  // ---------------------------------------------------------------------------
  // Authentication endpoints

  /**
   * POST register/: 201 with the new user as UserSerializer shows it, or 400
   * with the keys of the failing fields.
   */
  method Register(store: Store, input: RegistrationInput) returns (status: int, user: Option<UserView>, errors: set<RegistrationField>)
    requires store.Valid()
    modifies store
    ensures store.Valid()
    ensures status == CREATED <==> ValidateRegistration(input, old(store.users)).Ok?
    ensures status != CREATED ==>
      && status == BAD_REQUEST && user.None?
      && errors == ValidateRegistration(input, old(store.users)).error
      && unchanged(store)
    ensures status == CREATED ==>
      var id := old(store.nextUserId);
      && id !in old(store.users)
      && store.users == old(store.users)[id := User(input.email.value, input.firstName.value, input.lastName.value,
                                                   input.isAdmin.GetOr(false), false, false)]
      && user == Some(UserView(id, input.email.value, input.firstName.value, input.lastName.value,
                               input.isAdmin.GetOr(false)))
      && store.parkings == old(store.parkings) && store.bookings == old(store.bookings)
      && store.nextUserId == old(store.nextUserId) + 1
  {
    var v := ValidateRegistration(input, store.users);
    if v.Err? {
      return BAD_REQUEST, None, v.error;
    }
    var newId := CreateRegisteredUser(store, input);
    status, user, errors := CREATED, Some(ViewOf(newId, store.users[newId])), {};
  }

  /**
   * POST login/: a missing or empty email or password is 400 before any
   * credential check; `authenticated` is what the credential check returns.
   */
  function Login(email: Option<string>, password: Option<string>, authenticated: Option<int>): (status: int)
    ensures (email.None? || email.value == "" || password.None? || password.value == "") ==> status == BAD_REQUEST
    ensures (email.Some? && email.value != "" && password.Some? && password.value != "") ==>
      (status == OK <==> authenticated.Some?) && (status != OK ==> status == UNAUTHORIZED)
  {
    if email.None? || email.value == "" || password.None? || password.value == "" then BAD_REQUEST
    else if authenticated.Some? then OK
    else UNAUTHORIZED
  }

  // ---------------------------------------------------------------------------
  // User endpoints

  /** GET users/{id}/: 404 for an unknown target whatever the header, then the user access rule. */
  method GetUser(store: Store, userId: int, h: Header) returns (status: int, body: Option<UserView>)
    requires store.Valid()
    ensures userId !in store.users ==> status == NOT_FOUND
    ensures status == OK <==> userId in store.users && OwnerAccess(Resolve(h, store.users), userId) == Allow
    ensures status == FORBIDDEN <==>
      userId in store.users && OwnerAccess(Resolve(h, store.users), userId) == Deny(FORBIDDEN)
    ensures status == OK || status == FORBIDDEN || status == NOT_FOUND
    ensures status == OK ==> body == Some(ViewOf(userId, store.users[userId]))
    ensures status != OK ==> body.None?
  {
    if userId !in store.users {
      return NOT_FOUND, None;
    }
    var user := store.users[userId];
    var decision := OwnerAccess(Resolve(h, store.users), userId);
    if decision.Deny? {
      return decision.status, None;
    }
    status, body := OK, Some(ViewOf(userId, user));
  }

  /** DELETE users/{id}/delete/: the same rule as GET; on 200 the user's bookings go with it. */
  method DeleteUser(store: Store, userId: int, h: Header) returns (status: int)
    requires store.Valid()
    modifies store
    ensures store.Valid()
    ensures store.nextUserId == old(store.nextUserId)
    ensures status == NOT_FOUND <==> userId !in old(store.users)
    ensures status == FORBIDDEN <==>
      userId in old(store.users) && OwnerAccess(Resolve(h, old(store.users)), userId) == Deny(FORBIDDEN)
    ensures status == OK || status == FORBIDDEN || status == NOT_FOUND
    ensures status == OK ==>
      && store.users == old(store.users) - {userId}
      && store.bookings == BookingsWithout(old(store.bookings), ToUser, userId)
      && store.parkings == old(store.parkings)
    ensures status != OK ==> unchanged(store)
  {
    if userId !in store.users {
      return NOT_FOUND;
    }
    var decision := OwnerAccess(Resolve(h, store.users), userId);
    if decision.Deny? {
      return decision.status;
    }
    store.DeleteUser(userId);
    status := OK;
  }

  // ---------------------------------------------------------------------------
  // Parking endpoints: no header is read

  /** GET parking/: every parking. */
  method ListParkings(store: Store) returns (status: int, parkings: map<int, Parking>)
    ensures status == OK
    ensures parkings == store.parkings
  {
    status, parkings := OK, store.parkings;
  }

  /** POST parking/: 400 on a bad body; otherwise 201 with the id max existing + 1, whatever id the body names. */
  method PostParking(store: Store, input: ParkingInput) returns (status: int, id: Option<int>, errors: set<ParkingField>)
    requires store.Valid()
    modifies store
    ensures store.Valid()
    ensures store.nextUserId == old(store.nextUserId)
    ensures status == CREATED <==> ParkingFieldErrors(input, false) == {}
    ensures status != CREATED ==>
      status == BAD_REQUEST && id.None? && errors == ParkingFieldErrors(input, false) && unchanged(store)
    ensures status == CREATED ==>
      && id == Some(NextId(old(store.parkings).Keys)) && id.value !in old(store.parkings)
      && store.parkings == old(store.parkings)[id.value := ParkingOf(input)]
      && store.users == old(store.users) && store.bookings == old(store.bookings)
  {
    errors := ParkingFieldErrors(input, false);
    if errors != {} {
      return BAD_REQUEST, None, errors;
    }
    var newId := CreateParking(store, input);
    status, id := CREATED, Some(newId);
  }

  /** GET parking/{id}/: the parking, or 404. */
  method GetParking(store: Store, parkingId: int) returns (status: int, parking: Option<Parking>)
    ensures parkingId !in store.parkings ==> status == NOT_FOUND && parking.None?
    ensures parkingId in store.parkings ==> status == OK && parking == Some(store.parkings[parkingId])
  {
    if parkingId !in store.parkings {
      return NOT_FOUND, None;
    }
    status, parking := OK, Some(store.parkings[parkingId]);
  }

  /** PUT parking/{id}/update/: 404, 400 on a bad supplied field, else the supplied fields overwrite. */
  method UpdateParking(store: Store, parkingId: int, input: ParkingInput) returns (status: int, errors: set<ParkingField>)
    requires store.Valid()
    modifies store
    ensures store.Valid()
    ensures store.nextUserId == old(store.nextUserId)
    ensures parkingId !in old(store.parkings) ==> status == NOT_FOUND
    ensures parkingId in old(store.parkings) ==>
      (status == OK <==> ParkingFieldErrors(input, true) == {}) &&
      (status != OK ==> status == BAD_REQUEST && errors == ParkingFieldErrors(input, true))
    ensures status == OK ==>
      && store.parkings == old(store.parkings)[parkingId := MergeParking(old(store.parkings)[parkingId], input)]
      && store.users == old(store.users) && store.bookings == old(store.bookings)
    ensures status != OK ==> unchanged(store)
  {
    if parkingId !in store.parkings {
      return NOT_FOUND, {};
    }
    errors := ParkingFieldErrors(input, true);
    if errors != {} {
      return BAD_REQUEST, errors;
    }
    store.SaveParking(parkingId, MergeParking(store.parkings[parkingId], input));
    status := OK;
  }

  /** DELETE parking/{id}/delete/: 404, or the parking goes with exactly the bookings that reference it. */
  method DeleteParking(store: Store, parkingId: int) returns (status: int)
    requires store.Valid()
    modifies store
    ensures store.Valid()
    ensures store.nextUserId == old(store.nextUserId)
    ensures status == NOT_FOUND <==> parkingId !in old(store.parkings)
    ensures status == OK || status == NOT_FOUND
    ensures status == OK ==>
      && store.parkings == old(store.parkings) - {parkingId}
      && store.bookings == BookingsWithout(old(store.bookings), ToParking, parkingId)
      && store.users == old(store.users)
    ensures status != OK ==> unchanged(store)
  {
    if parkingId !in store.parkings {
      return NOT_FOUND;
    }
    store.DeleteParking(parkingId);
    status := OK;
  }

  // ---------------------------------------------------------------------------
  // Booking endpoints

  /**
   * POST bookings/: 401 unless the header resolves to a user, 400 on a bad
   * body, 500 when a parking_id of 0 names no parking, else 201 with a
   * booking owned by the principal.
   */
  method PostBooking(store: Store, h: Header, input: BookingInput) returns (status: int, id: Option<int>, errors: set<BookingField>)
    requires store.Valid()
    modifies store
    ensures store.Valid()
    ensures store.nextUserId == old(store.nextUserId)
    ensures !Resolve(h, old(store.users)).Resolved? ==> status == UNAUTHORIZED
    ensures Resolve(h, old(store.users)).Resolved? && ValidateBooking(input, old(store.parkings), false).Err? ==>
      status == BAD_REQUEST && errors == ValidateBooking(input, old(store.parkings), false).error
    ensures Resolve(h, old(store.users)).Resolved? && ValidateBooking(input, old(store.parkings), false).Ok? ==>
      (status == CREATED <==> input.parkingId.value in old(store.parkings)) &&
      (status != CREATED ==> status == SERVER_ERROR)
    ensures status != CREATED ==> id.None? && unchanged(store)
    ensures status == CREATED ==>
      && id == Some(NextId(old(store.bookings).Keys)) && id.value !in old(store.bookings)
      && store.bookings == old(store.bookings)[id.value :=
           Booking(input.parkingId.value, Resolve(h, old(store.users)).id, input.startTime.value, input.endTime.value)]
      && input.startTime.value < input.endTime.value
      && store.users == old(store.users) && store.parkings == old(store.parkings)
  {
    var creator := BookingCreator(Resolve(h, store.users));
    if creator.Err? {
      return creator.error, None, {};
    }
    var v := ValidateBooking(input, store.parkings, false);
    if v.Err? {
      return BAD_REQUEST, None, v.error;
    }
    id := CreateBooking(store, input, creator.value);
    if id.None? {
      return SERVER_ERROR, None, {};
    }
    status, errors := CREATED, {};
  }

  /** GET bookings/: the bookings the header lets the caller see. */
  method ListBookings(store: Store, h: Header) returns (status: int, bookings: map<int, Booking>)
    ensures status == OK
    ensures bookings == VisibleBookings(Resolve(h, store.users), store.bookings)
    ensures h.Absent? ==> bookings == store.bookings
  {
    status, bookings := OK, VisibleBookings(Resolve(h, store.users), store.bookings);
  }

  /** GET bookings/{id}/: 404, 403 for a resolved non-admin non-owner, else the booking. */
  method GetBooking(store: Store, bookingId: int, h: Header) returns (status: int, booking: Option<Booking>)
    ensures bookingId !in store.bookings ==> status == NOT_FOUND && booking.None?
    ensures bookingId in store.bookings ==>
      var d := OwnerAccess(Resolve(h, store.users), store.bookings[bookingId].userId);
      (d == Allow ==> status == OK && booking == Some(store.bookings[bookingId])) &&
      (d.Deny? ==> status == d.status && booking.None?)
  {
    if bookingId !in store.bookings {
      return NOT_FOUND, None;
    }
    var b := store.bookings[bookingId];
    var d := OwnerAccess(Resolve(h, store.users), b.userId);
    if d.Deny? {
      return d.status, None;
    }
    status, booking := OK, Some(b);
  }

  /**
   * PUT bookings/{id}/update/: 404, then the write rule (401 or 403), then
   * validation (400). A body carrying parking_id or user_id makes the save
   * fail (500); otherwise the supplied times overwrite the stored ones.
   */
  method UpdateBooking(store: Store, bookingId: int, h: Header, input: BookingInput) returns (status: int, errors: set<BookingField>)
    requires store.Valid()
    modifies store
    ensures store.Valid()
    ensures store.nextUserId == old(store.nextUserId)
    ensures bookingId !in old(store.bookings) ==> status == NOT_FOUND
    ensures bookingId in old(store.bookings) ==>
      var d := BookingWriteAccess(Resolve(h, old(store.users)), old(store.bookings)[bookingId].userId);
      var v := ValidateBooking(input, old(store.parkings), true);
      && (d.Deny? ==> status == d.status)
      && (d == Allow && v.Err? ==> status == BAD_REQUEST && errors == v.error)
      && (d == Allow && v.Ok? && (input.parkingId.Some? || input.userId.Some?) ==> status == SERVER_ERROR)
      && (d == Allow && v.Ok? && input.parkingId.None? && input.userId.None? ==> status == OK)
    ensures status == OK ==>
      && store.bookings == old(store.bookings)[bookingId := MergeBookingTimes(old(store.bookings)[bookingId], input)]
      && store.users == old(store.users) && store.parkings == old(store.parkings)
    ensures status != OK ==> unchanged(store)
  {
    if bookingId !in store.bookings {
      return NOT_FOUND, {};
    }
    var current := store.bookings[bookingId];
    var d := BookingWriteAccess(Resolve(h, store.users), current.userId);
    if d.Deny? {
      return d.status, {};
    }
    var v := ValidateBooking(input, store.parkings, true);
    if v.Err? {
      return BAD_REQUEST, v.error;
    }
    if input.parkingId.Some? || input.userId.Some? {
      // the default update assigns the bare integer to the foreign-key attribute, which raises
      return SERVER_ERROR, {};
    }
    store.SaveBooking(bookingId, MergeBookingTimes(current, input));
    status, errors := OK, {};
  }

  /** DELETE bookings/{id}/delete/: 404, then the write rule (401 or 403), else the booking goes. */
  method DeleteBooking(store: Store, bookingId: int, h: Header) returns (status: int)
    requires store.Valid()
    modifies store
    ensures store.Valid()
    ensures store.nextUserId == old(store.nextUserId)
    ensures bookingId !in old(store.bookings) ==> status == NOT_FOUND
    ensures bookingId in old(store.bookings) ==>
      var d := BookingWriteAccess(Resolve(h, old(store.users)), old(store.bookings)[bookingId].userId);
      (d == Allow ==> status == OK) && (d.Deny? ==> status == d.status)
    ensures status == OK ==>
      && store.bookings == old(store.bookings) - {bookingId}
      && store.users == old(store.users) && store.parkings == old(store.parkings)
    ensures status != OK ==> unchanged(store)
  {
    if bookingId !in store.bookings {
      return NOT_FOUND;
    }
    var d := BookingWriteAccess(Resolve(h, store.users), store.bookings[bookingId].userId);
    if d.Deny? {
      return d.status;
    }
    store.DeleteBooking(bookingId);
    status := OK;
  }
}
