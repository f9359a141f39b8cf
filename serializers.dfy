/**
 * The serializers: field-level and object-level validation of request bodies,
 * the "max existing id + 1" assignment of parking and booking ids, and the
 * create steps that turn validated data into rows of the store.
 */
module Serializers {
  import opened Wrappers
  import opened Models

  /** min_length of both password fields of the registration serializer. */
  const PASSWORD_MIN_LENGTH := 8
  /** max_length of the parking address and comment columns. */
  const PARKING_TEXT_MAX_LENGTH := 255

  // ---------------------------------------------------------------------------
  // Auto-id assignment

  lemma NonEmptyHasElement(s: set<int>)
    requires s != {}
    ensures exists x :: x in s
  {
    if forall x :: x !in s {
      assert false;
    }
  }

  ghost function MaxOf(s: set<int>): (m: int)
    requires s != {}
    ensures m in s
    ensures forall x :: x in s ==> x <= m
  {
    NonEmptyHasElement(s);
    var x :| x in s;
    var rest := s - {x};
    assert forall y :: y in s ==> y == x || y in rest;
    if rest == {} then x
    else
      var m' := MaxOf(rest);
      if x < m' then m' else x
  }

  /** The id the serializers give a new row: one above the largest id in use, or 1 for an empty table. */
  ghost function NextId(ids: set<int>): (r: int)
    ensures r !in ids
    ensures ids == {} ==> r == 1
    ensures ids != {} ==> r - 1 in ids && forall x :: x in ids ==> x < r
  {
    if ids == {} then 1 else MaxOf(ids) + 1
  }

  /** `order_by('-id').first()`: a scan for the largest id, then one more (1 when there is none). */
  method ScanNextId(ids: set<int>) returns (r: int)
    ensures r == NextId(ids)
  {
    if ids == {} {
      return 1;
    }
    NonEmptyHasElement(ids);
    var first :| first in ids;
    var top := first;
    var rest := ids - {first};
    while rest != {}
      invariant rest <= ids && top in ids
      invariant forall x :: x in ids && x !in rest ==> x <= top
      decreases rest
    {
      NonEmptyHasElement(rest);
      var x :| x in rest;
      if top < x {
        top := x;
      }
      rest := rest - {x};
    }
    r := top + 1;
  }

  // ---------------------------------------------------------------------------
  // UserRegistrationSerializer and UserSerializer

  /** A registration body; None is a field missing from the body. */
  datatype RegistrationInput = RegistrationInput(
    email: Option<string>,
    firstName: Option<string>,
    lastName: Option<string>,
    password: Option<string>,
    passwordConfirm: Option<string>,
    isAdmin: Option<bool>)

  /** The keys a registration error can be reported under. */
  datatype RegistrationField = EmailField | FirstNameField | LastNameField | PasswordField | PasswordConfirmField

  predicate PasswordAcceptable(pw: Option<string>) {
    pw.Some? && |pw.value| >= PASSWORD_MIN_LENGTH
  }

  /**
   * Field-level checks: email, first and last name are required, email must be
   * non-blank and not yet used by any user, both passwords need at least
   * eight characters.
   */
  function RegistrationFieldErrors(input: RegistrationInput, users: map<int, User>): (r: set<RegistrationField>)
    ensures r == {} <==>
      && input.email.Some? && input.email.value != "" && !EmailTaken(users, input.email.value)
      && input.firstName.Some? && input.lastName.Some?
      && PasswordAcceptable(input.password) && PasswordAcceptable(input.passwordConfirm)
    ensures EmailField in r <==> input.email.None? || input.email.value == "" || EmailTaken(users, input.email.value)
    ensures PasswordField in r <==> !PasswordAcceptable(input.password)
    ensures PasswordConfirmField in r <==> !PasswordAcceptable(input.passwordConfirm)
  {
    (if input.email.None? || input.email.value == "" || EmailTaken(users, input.email.value) then {EmailField} else {})
    + (if input.firstName.None? then {FirstNameField} else {})
    + (if input.lastName.None? then {LastNameField} else {})
    + (if !PasswordAcceptable(input.password) then {PasswordField} else {})
    + (if !PasswordAcceptable(input.passwordConfirm) then {PasswordConfirmField} else {})
  }

  /** is_valid(): the field-level checks, then `validate`, which compares the two passwords. */
  function ValidateRegistration(input: RegistrationInput, users: map<int, User>): (r: Result<RegistrationInput, set<RegistrationField>>)
    ensures r.Err? ==> r.error != {}
    ensures r.Ok? ==> r.value == input
    ensures r.Ok? <==>
      && input.email.Some? && input.email.value != "" && !EmailTaken(users, input.email.value)
      && input.firstName.Some? && input.lastName.Some?
      && PasswordAcceptable(input.password) && input.password == input.passwordConfirm
    ensures RegistrationFieldErrors(input, users) == {} && input.password != input.passwordConfirm ==>
      r == Err({PasswordField})
    ensures input.password.Some? && |input.password.value| < PASSWORD_MIN_LENGTH ==>
      r.Err? && PasswordField in r.error
    ensures input.passwordConfirm.Some? && |input.passwordConfirm.value| < PASSWORD_MIN_LENGTH ==>
      r.Err? && PasswordConfirmField in r.error
  {
    var errors := RegistrationFieldErrors(input, users);
    if errors != {} then Err(errors)
    else if input.password != input.passwordConfirm then Err({PasswordField})
    else Ok(input)
  }

  /** UserRegistrationSerializer.create: drop both passwords and hand the rest to create_user. */
  method CreateRegisteredUser(store: Store, data: RegistrationInput) returns (id: int)
    requires store.Valid()
    requires ValidateRegistration(data, store.users).Ok?
    modifies store
    ensures store.Valid()
    ensures id == old(store.nextUserId) && id !in old(store.users)
    ensures store.users == old(store.users)[id := User(data.email.value, data.firstName.value, data.lastName.value,
                                                      data.isAdmin.GetOr(false), false, false)]
    ensures store.parkings == old(store.parkings) && store.bookings == old(store.bookings)
    ensures store.nextUserId == old(store.nextUserId) + 1
  {
    var extra := ExtraFields(data.firstName, data.lastName, data.isAdmin, None, None);
    var r := store.CreateUser(data.email.value, extra);
    id := r.value;
  }

  /** The fields UserSerializer exposes: never a password, never the staff flags. */
  datatype UserView = UserView(id: int, email: string, firstName: string, lastName: string, isAdmin: bool)

  function ViewOf(id: int, u: User): UserView {
    UserView(id, u.email, u.firstName, u.lastName, u.isAdmin)
  }

  /** The staff and superuser flags never reach a response: users differing only there look alike. */
  lemma ViewHidesStaffFlags(id: int, u: User, isStaff: bool, isSuperuser: bool)
    ensures ViewOf(id, u.(isStaff := isStaff, isSuperuser := isSuperuser)) == ViewOf(id, u)
  {
  }

  // ---------------------------------------------------------------------------
  // ParkingSerializer

  /**
   * A parking body. `parkingId` is read-only and always discarded; `comment`
   * is None when missing, Some(None) when null.
   */
  datatype ParkingInput = ParkingInput(
    parkingId: Option<int>,
    amountOfSpots: Option<int>,
    address: Option<string>,
    comment: Option<Option<string>>,
    price: Option<int>)

  datatype ParkingField = AmountOfSpotsField | AddressField | CommentField | PriceField

  /**
   * Field-level checks; a partial update requires nothing. The address may
   * not be blank, and address and comment are at most 255 characters.
   */
  function ParkingFieldErrors(input: ParkingInput, partial: bool): (r: set<ParkingField>)
    ensures r == {} <==>
      && (!partial ==> input.amountOfSpots.Some? && input.address.Some? && input.price.Some?)
      && (input.address.Some? ==> 0 < |input.address.value| <= PARKING_TEXT_MAX_LENGTH)
      && (input.comment.Some? && input.comment.value.Some? ==> |input.comment.value.value| <= PARKING_TEXT_MAX_LENGTH)
    ensures partial && input.address.None? && input.comment.None? ==> r == {}
  {
    (if !partial && input.amountOfSpots.None? then {AmountOfSpotsField} else {})
    + (if (!partial && input.address.None?)
          || (input.address.Some? && (input.address.value == "" || |input.address.value| > PARKING_TEXT_MAX_LENGTH))
       then {AddressField} else {})
    + (if input.comment.Some? && input.comment.value.Some? && |input.comment.value.value| > PARKING_TEXT_MAX_LENGTH
       then {CommentField} else {})
    + (if !partial && input.price.None? then {PriceField} else {})
  }

  /** The row a valid create body describes; an omitted comment is NULL. */
  function ParkingOf(input: ParkingInput): (p: Parking)
    requires ParkingFieldErrors(input, false) == {}
    ensures p.amountOfSpots == input.amountOfSpots.value && p.address == input.address.value
    ensures p.price == input.price.value
    ensures p.comment == if input.comment.Some? then input.comment.value else None
    ensures 0 < |p.address| <= PARKING_TEXT_MAX_LENGTH
  {
    Parking(input.amountOfSpots.value, input.address.value,
            if input.comment.Some? then input.comment.value else None,
            input.price.value)
  }

  /** A partial update: every supplied field overwrites the stored one, the others stay. */
  function MergeParking(current: Parking, input: ParkingInput): (p: Parking)
    ensures input.amountOfSpots.None? ==> p.amountOfSpots == current.amountOfSpots
    ensures input.amountOfSpots.Some? ==> p.amountOfSpots == input.amountOfSpots.value
    ensures input.address.None? ==> p.address == current.address
    ensures input.address.Some? ==> p.address == input.address.value
    ensures input.comment.None? ==> p.comment == current.comment
    ensures input.comment.Some? ==> p.comment == input.comment.value
    ensures input.price.None? ==> p.price == current.price
    ensures input.price.Some? ==> p.price == input.price.value
  {
    Parking(input.amountOfSpots.GetOr(current.amountOfSpots),
            input.address.GetOr(current.address),
            input.comment.GetOr(current.comment),
            input.price.GetOr(current.price))
  }

  /** ParkingSerializer.create: parking_id is read-only, so the id is always max existing + 1. */
  method CreateParking(store: Store, data: ParkingInput) returns (id: int)
    requires store.Valid()
    requires ParkingFieldErrors(data, false) == {}
    modifies store
    ensures store.Valid()
    ensures id == NextId(old(store.parkings).Keys) && id !in old(store.parkings)
    ensures store.parkings == old(store.parkings)[id := ParkingOf(data)]
    ensures store.users == old(store.users) && store.bookings == old(store.bookings)
    ensures store.nextUserId == old(store.nextUserId)
  {
    id := ScanNextId(store.parkings.Keys);
    store.InsertParking(id, ParkingOf(data));
  }

  // ---------------------------------------------------------------------------
  // BookingSerializer

  /** A booking body; `userId` is accepted but never trusted. */
  datatype BookingInput = BookingInput(
    parkingId: Option<int>,
    userId: Option<int>,
    startTime: Option<int>,
    endTime: Option<int>)

  datatype BookingField = ParkingIdField | StartTimeField | EndTimeField

  /** Field-level checks: parking_id, start_time and end_time are required, except in a partial update. */
  function BookingFieldErrors(input: BookingInput, partial: bool): (r: set<BookingField>)
    ensures partial ==> r == {}
    ensures !partial ==> (r == {} <==> input.parkingId.Some? && input.startTime.Some? && input.endTime.Some?)
    ensures ParkingIdField in r <==> !partial && input.parkingId.None?
    ensures StartTimeField in r <==> !partial && input.startTime.None?
    ensures EndTimeField in r <==> !partial && input.endTime.None?
  {
    (if !partial && input.parkingId.None? then {ParkingIdField} else {})
    + (if !partial && input.startTime.None? then {StartTimeField} else {})
    + (if !partial && input.endTime.None? then {EndTimeField} else {})
  }

  /**
   * is_valid(): the field-level checks, then `validate`. The time order is
   * checked only when both times are in the body; the parking is looked up
   * only when parking_id is truthy, so 0 is never looked up.
   */
  function ValidateBooking(input: BookingInput, parkings: map<int, Parking>, partial: bool): (r: Result<BookingInput, set<BookingField>>)
    ensures r.Err? ==> r.error != {}
    ensures r.Ok? ==> r.value == input && BookingFieldErrors(input, partial) == {}
    ensures r.Ok? && input.startTime.Some? && input.endTime.Some? ==> input.startTime.value < input.endTime.value
    ensures r.Ok? && input.parkingId.Some? && input.parkingId.value != 0 ==> input.parkingId.value in parkings
    ensures (BookingFieldErrors(input, partial) == {} && input.startTime.Some? && input.endTime.Some?
             && input.startTime.value >= input.endTime.value) ==> r == Err({EndTimeField})
    ensures (BookingFieldErrors(input, partial) == {}
             && !(input.startTime.Some? && input.endTime.Some? && input.startTime.value >= input.endTime.value)
             && input.parkingId.Some? && input.parkingId.value != 0 && input.parkingId.value !in parkings)
            ==> r == Err({ParkingIdField})
    ensures !partial ==> (r.Ok? <==>
      && input.parkingId.Some? && input.startTime.Some? && input.endTime.Some?
      && input.startTime.value < input.endTime.value
      && (input.parkingId.value == 0 || input.parkingId.value in parkings))
    ensures partial ==> (r.Ok? <==>
      && !(input.startTime.Some? && input.endTime.Some? && input.startTime.value >= input.endTime.value)
      && !(input.parkingId.Some? && input.parkingId.value != 0 && input.parkingId.value !in parkings))
  {
    var errors := BookingFieldErrors(input, partial);
    if errors != {} then Err(errors)
    else if input.startTime.Some? && input.endTime.Some? && input.startTime.value >= input.endTime.value then
      Err({EndTimeField})
    else if input.parkingId.Some? && input.parkingId.value != 0 && input.parkingId.value !in parkings then
      Err({ParkingIdField})
    else Ok(input)
  }

  /** The keys of `validated_data` as the create step manipulates it. */
  datatype Column = BookingIdColumn | ParkingIdColumn | UserIdColumn | StartTimeColumn | EndTimeColumn

  /** A value in `validated_data`: a plain integer, or a fetched parking or user object. */
  datatype Value = IntValue(n: int) | ParkingRef(parkingId: int) | UserRef(userId: int)

  type Row = map<Column, Value>

  /** `d` with column `c` holding the integer `v`, when `v` was supplied. */
  function PutSupplied(d: Row, c: Column, v: Option<int>): (r: Row)
    ensures c in r <==> c in d || v.Some?
    ensures v.Some? ==> r[c] == IntValue(v.value)
    ensures forall k :: k != c ==> (k in r <==> k in d) && (k in d ==> r[k] == d[k])
  {
    if v.Some? then d[c := IntValue(v.value)] else d
  }

  /** The validated data DRF hands to create: one entry per supplied writable field. */
  function ValidatedData(input: BookingInput): (d: Row)
    ensures BookingIdColumn !in d
    ensures ParkingIdColumn in d <==> input.parkingId.Some?
    ensures input.parkingId.Some? ==> d[ParkingIdColumn] == IntValue(input.parkingId.value)
    ensures UserIdColumn in d <==> input.userId.Some?
    ensures input.userId.Some? ==> d[UserIdColumn] == IntValue(input.userId.value)
    ensures StartTimeColumn in d <==> input.startTime.Some?
    ensures input.startTime.Some? ==> d[StartTimeColumn] == IntValue(input.startTime.value)
    ensures EndTimeColumn in d <==> input.endTime.Some?
    ensures input.endTime.Some? ==> d[EndTimeColumn] == IntValue(input.endTime.value)
  {
    PutSupplied(PutSupplied(PutSupplied(PutSupplied(map[],
      ParkingIdColumn, input.parkingId),
      UserIdColumn, input.userId),
      StartTimeColumn, input.startTime),
      EndTimeColumn, input.endTime)
  }

  /**
   * The INSERT that `super().create` performs: every column is NOT NULL and
   * each foreign key must be an object. None is the database refusing the row.
   */
  function InsertedBooking(row: Row): (r: Option<(int, Booking)>)
    ensures r.Some? <==>
      && BookingIdColumn in row && row[BookingIdColumn].IntValue?
      && ParkingIdColumn in row && row[ParkingIdColumn].ParkingRef?
      && UserIdColumn in row && row[UserIdColumn].UserRef?
      && StartTimeColumn in row && row[StartTimeColumn].IntValue?
      && EndTimeColumn in row && row[EndTimeColumn].IntValue?
    ensures r.Some? ==>
      (r.value.0 == row[BookingIdColumn].n
       && r.value.1 == Booking(row[ParkingIdColumn].parkingId, row[UserIdColumn].userId,
                               row[StartTimeColumn].n, row[EndTimeColumn].n))
  {
    if && BookingIdColumn in row && row[BookingIdColumn].IntValue?
       && ParkingIdColumn in row && row[ParkingIdColumn].ParkingRef?
       && UserIdColumn in row && row[UserIdColumn].UserRef?
       && StartTimeColumn in row && row[StartTimeColumn].IntValue?
       && EndTimeColumn in row && row[EndTimeColumn].IntValue?
    then
      Some((row[BookingIdColumn].n,
            Booking(row[ParkingIdColumn].parkingId, row[UserIdColumn].userId,
                    row[StartTimeColumn].n, row[EndTimeColumn].n)))
    else None
  }

  /**
   * BookingSerializer.create as written: it stores the request principal
   * under user_id and then pops user_id, so the row reaches the INSERT with no
   * owner at all. None is the parking lookup raising DoesNotExist.
   */
  method PrepareBookingRowAsWritten(data: Row, bookingIds: set<int>, parkingIds: set<int>, principal: int)
    returns (row: Option<Row>)
    requires ParkingIdColumn in data && data[ParkingIdColumn].IntValue?
    ensures row.None? <==> data[ParkingIdColumn].n !in parkingIds
    ensures row.Some? ==> UserIdColumn !in row.value
    ensures row.Some? ==> InsertedBooking(row.value).None?
  {
    var d := data;
    if BookingIdColumn !in d {
      var next := ScanNextId(bookingIds);
      d := d[BookingIdColumn := IntValue(next)];
    }
    var parkingId := d[ParkingIdColumn].n;
    d := d - {ParkingIdColumn};
    if parkingId !in parkingIds {
      return None;
    }
    d := d[ParkingIdColumn := ParkingRef(parkingId)];
    d := d[UserIdColumn := UserRef(principal)];
    d := d - {UserIdColumn};
    row := Some(d);
  }

  /**
   * BookingSerializer.create as intended: any user_id from the body is
   * discarded and the owner is the request principal. None is the parking
   * lookup raising DoesNotExist.
   */
  method PrepareBookingRow(data: Row, bookingIds: set<int>, parkingIds: set<int>, principal: int)
    returns (row: Option<Row>)
    requires BookingIdColumn !in data
    requires ParkingIdColumn in data && data[ParkingIdColumn].IntValue?
    requires StartTimeColumn in data && data[StartTimeColumn].IntValue?
    requires EndTimeColumn in data && data[EndTimeColumn].IntValue?
    ensures row.None? <==> data[ParkingIdColumn].n !in parkingIds
    ensures row.Some? ==>
      (InsertedBooking(row.value) ==
       Some((NextId(bookingIds),
             Booking(data[ParkingIdColumn].n, principal, data[StartTimeColumn].n, data[EndTimeColumn].n))))
  {
    var d := data;
    if BookingIdColumn !in d {
      var next := ScanNextId(bookingIds);
      d := d[BookingIdColumn := IntValue(next)];
    }
    var parkingId := d[ParkingIdColumn].n;
    d := d - {ParkingIdColumn};
    if parkingId !in parkingIds {
      return None;
    }
    d := d[ParkingIdColumn := ParkingRef(parkingId)];
    d := d - {UserIdColumn};
    d := d[UserIdColumn := UserRef(principal)];
    row := Some(d);
  }

  /**
   * Validated create data to a stored booking owned by `principal`, under id
   * max existing + 1. None is the unhandled lookup failure of a parking_id
   * that `validate` skipped (0) and that names no parking.
   */
  method CreateBooking(store: Store, data: BookingInput, principal: int) returns (id: Option<int>)
    requires store.Valid() && principal in store.users
    requires ValidateBooking(data, store.parkings, false).Ok?
    modifies store
    ensures store.Valid()
    ensures id.None? <==> data.parkingId.value !in old(store.parkings)
    ensures id.None? ==> unchanged(store)
    ensures id.Some? ==>
      && id.value == NextId(old(store.bookings).Keys) && id.value !in old(store.bookings)
      && store.bookings == old(store.bookings)[id.value :=
           Booking(data.parkingId.value, principal, data.startTime.value, data.endTime.value)]
      && store.users == old(store.users) && store.parkings == old(store.parkings)
      && store.nextUserId == old(store.nextUserId)
  {
    var row := PrepareBookingRow(ValidatedData(data), store.bookings.Keys, store.parkings.Keys, principal);
    if row.None? {
      return None;
    }
    var inserted := InsertedBooking(row.value);
    var (newId, booking) := inserted.value;
    store.InsertBooking(newId, booking);
    id := Some(newId);
  }

  /** A partial update may not reassign the booking: only the times are overwritten. */
  function MergeBookingTimes(current: Booking, input: BookingInput): (b: Booking)
    ensures b.parkingId == current.parkingId && b.userId == current.userId
    ensures b.startTime == input.startTime.GetOr(current.startTime)
    ensures b.endTime == input.endTime.GetOr(current.endTime)
  {
    current.(startTime := input.startTime.GetOr(current.startTime),
             endTime := input.endTime.GetOr(current.endTime))
  }

  // ---------------------------------------------------------------------------
  // Properties

  /** A partial update that carries only one time is not checked against the stored other one. */
  lemma OneTimeUpdateCanInvertBooking(parkings: map<int, Parking>, current: Booking, t: int)
    ensures ValidateBooking(BookingInput(None, None, Some(t), None), parkings, true).Ok?
    ensures ValidateBooking(BookingInput(None, None, None, Some(t)), parkings, true).Ok?
    ensures t >= current.endTime ==>
      var b := MergeBookingTimes(current, BookingInput(None, None, Some(t), None));
      b.startTime >= b.endTime
    ensures t <= current.startTime ==>
      var b := MergeBookingTimes(current, BookingInput(None, None, None, Some(t)));
      b.startTime >= b.endTime
  {
  }

  /** A falsy parking_id (0) passes validation whether or not a parking 0 exists. */
  lemma ZeroParkingIdSkipsLookup(parkings: map<int, Parking>, start: int, end: int)
    requires start < end
    ensures ValidateBooking(BookingInput(Some(0), None, Some(start), Some(end)), parkings, false).Ok?
  {
  }

  /** Whatever the body claims as owner, the as-written create step never yields a row the database accepts. */
  lemma AsWrittenRowNeverInserts(row: Row)
    requires UserIdColumn !in row
    ensures InsertedBooking(row).None?
  {
  }
}
