/**
 * The three tables of the parking backend (users, parkings, bookings), the
 * custom user manager, and the store-level rules the database enforces:
 * primary keys are unique (each table is a map keyed by its id), user emails
 * are unique, and bookings reference an existing parking and user, with
 * ON DELETE CASCADE from both.
 */
module Models {
  import opened Wrappers

  /** A user row. The password hash and date_joined are not modelled. */
  datatype User = User(
    email: string,
    firstName: string,
    lastName: string,
    isAdmin: bool,
    isStaff: bool,
    isSuperuser: bool)

  /** A parking row; its primary key parking_id is the key of the table. */
  datatype Parking = Parking(amountOfSpots: int, address: string, comment: Option<string>, price: int)

  /** A booking row; its primary key booking_id is the key of the table. Times are opaque instants. */
  datatype Booking = Booking(parkingId: int, userId: int, startTime: int, endTime: int)

  /** The keyword arguments handed to the user manager; None is "not supplied". */
  datatype ExtraFields = ExtraFields(
    firstName: Option<string>,
    lastName: Option<string>,
    isAdmin: Option<bool>,
    isStaff: Option<bool>,
    isSuperuser: Option<bool>)

  /** The exceptions the user manager and the database raise on a bad user. */
  datatype ManagerError =
    | EmailNotSet        // ValueError: the email field must be set
    | StaffRequired      // ValueError: superuser must have is_staff=True
    | SuperuserRequired  // ValueError: superuser must have is_superuser=True
    | DuplicateEmail     // IntegrityError from the unique constraint on email

  predicate EmailTaken(users: map<int, User>, email: string) {
    exists id :: id in users && users[id].email == email
  }

  predicate EmailsUnique(users: map<int, User>) {
    forall a, b :: a in users && b in users && a != b ==> users[a].email != users[b].email
  }

  /** The row the manager builds: model defaults for every field not supplied. */
  function NewUser(email: string, extra: ExtraFields): User {
    User(email,
         extra.firstName.GetOr(""),
         extra.lastName.GetOr(""),
         extra.isAdmin.GetOr(false),
         extra.isStaff.GetOr(false),
         extra.isSuperuser.GetOr(false))
  }

  /** The two foreign keys of a booking. */
  datatype Reference = ToParking | ToUser

  /** The id a booking's foreign key holds. */
  function Referenced(b: Booking, ref: Reference): int {
    match ref
    case ToParking => b.parkingId
    case ToUser => b.userId
  }

  /** The bookings that survive deleting the row `id` that foreign key `ref` points at (ON DELETE CASCADE). */
  function BookingsWithout(bookings: map<int, Booking>, ref: Reference, id: int): (r: map<int, Booking>)
    ensures forall b :: b in r <==> b in bookings && Referenced(bookings[b], ref) != id
    ensures forall b :: b in r ==> r[b] == bookings[b]
  {
    map b | b in bookings && Referenced(bookings[b], ref) != id :: bookings[b]
  }

  /** The whole database. */
  class Store {
    var users: map<int, User>
    var parkings: map<int, Parking>
    var bookings: map<int, Booking>
    /** The next value of the user table's id sequence. */
    var nextUserId: int

    /** Unique emails, a sequence ahead of every user id, and referential integrity of bookings. */
    ghost predicate Valid()
      reads this
    {
      && EmailsUnique(users)
      && (forall id :: id in users ==> id < nextUserId)
      && (forall id :: id in bookings ==> bookings[id].parkingId in parkings && bookings[id].userId in users)
    }

    constructor ()
      ensures Valid()
      ensures users == map[] && parkings == map[] && bookings == map[] && nextUserId == 1
    {
      users, parkings, bookings := map[], map[], map[];
      nextUserId := 1;
    }

    /** UserManager.create_user: reject an empty email, then save the row under a fresh id. */
    method CreateUser(email: string, extra: ExtraFields) returns (r: Result<int, ManagerError>)
      requires Valid()
      modifies this
      ensures Valid()
      ensures email == "" ==> r == Err(EmailNotSet)
      ensures email != "" && EmailTaken(old(users), email) ==> r == Err(DuplicateEmail)
      ensures r.Err? ==> unchanged(this)
      ensures r.Ok? ==>
        && email != "" && !EmailTaken(old(users), email)
        && r.value == old(nextUserId) && r.value !in old(users)
        && users == old(users)[r.value := NewUser(email, extra)]
        && nextUserId == old(nextUserId) + 1
        && parkings == old(parkings) && bookings == old(bookings)
      ensures email != "" && !EmailTaken(old(users), email) ==> r.Ok?
    {
      if email == "" {
        return Err(EmailNotSet);
      }
      if EmailTaken(users, email) {
        return Err(DuplicateEmail);
      }
      var id := nextUserId;
      users := users[id := NewUser(email, extra)];
      nextUserId := nextUserId + 1;
      r := Ok(id);
    }

    /**
     * UserManager.create_superuser: is_staff and is_superuser default to True;
     * any value other than True for either is refused before anything is saved.
     */
    method CreateSuperuser(email: string, extra: ExtraFields) returns (r: Result<int, ManagerError>)
      requires Valid()
      modifies this
      ensures Valid()
      ensures extra.isStaff == Some(false) ==> r == Err(StaffRequired)
      ensures extra.isStaff != Some(false) && extra.isSuperuser == Some(false) ==> r == Err(SuperuserRequired)
      ensures extra.isStaff != Some(false) && extra.isSuperuser != Some(false) ==>
        (email == "" ==> r == Err(EmailNotSet)) &&
        (email != "" && EmailTaken(old(users), email) ==> r == Err(DuplicateEmail)) &&
        (email != "" && !EmailTaken(old(users), email) ==> r.Ok?)
      ensures r.Err? ==> unchanged(this)
      ensures r.Ok? ==>
        && r.value == old(nextUserId)
        && users == old(users)[r.value := NewUser(email, extra.(isStaff := Some(true), isSuperuser := Some(true)))]
        && users[r.value].isStaff && users[r.value].isSuperuser
        && users[r.value].isAdmin == extra.isAdmin.GetOr(false)
        && parkings == old(parkings) && bookings == old(bookings)
    {
      var fields := extra;
      if fields.isStaff.None? {
        fields := fields.(isStaff := Some(true));
      }
      if fields.isSuperuser.None? {
        fields := fields.(isSuperuser := Some(true));
      }
      // `is not True`: only a supplied True passes
      if !(fields.isStaff.Some? && fields.isStaff.value) {
        return Err(StaffRequired);
      }
      if !(fields.isSuperuser.Some? && fields.isSuperuser.value) {
        return Err(SuperuserRequired);
      }
      r := CreateUser(email, fields);
    }

    /** user.delete(): the user row goes, and with it every booking the user owns. */
    method DeleteUser(id: int)
      requires Valid()
      modifies this
      ensures Valid()
      ensures users == old(users) - {id}
      ensures bookings == BookingsWithout(old(bookings), ToUser, id)
      ensures parkings == old(parkings) && nextUserId == old(nextUserId)
    {
      users := users - {id};
      bookings := BookingsWithout(bookings, ToUser, id);
    }

    /** parking.delete(): the parking row goes, and with it every booking that references it. */
    method DeleteParking(id: int)
      requires Valid()
      modifies this
      ensures Valid()
      ensures parkings == old(parkings) - {id}
      ensures bookings == BookingsWithout(old(bookings), ToParking, id)
      ensures users == old(users) && nextUserId == old(nextUserId)
    {
      parkings := parkings - {id};
      bookings := BookingsWithout(bookings, ToParking, id);
    }

    /** booking.delete(): nothing depends on a booking. */
    method DeleteBooking(id: int)
      requires Valid()
      modifies this
      ensures Valid()
      ensures bookings == old(bookings) - {id}
      ensures users == old(users) && parkings == old(parkings) && nextUserId == old(nextUserId)
    {
      bookings := bookings - {id};
    }

    /** INSERT of a parking row under a primary key not yet in use. */
    method InsertParking(id: int, p: Parking)
      requires Valid() && id !in parkings
      modifies this
      ensures Valid()
      ensures parkings == old(parkings)[id := p]
      ensures users == old(users) && bookings == old(bookings) && nextUserId == old(nextUserId)
    {
      parkings := parkings[id := p];
    }

    /** UPDATE of an existing parking row. */
    method SaveParking(id: int, p: Parking)
      requires Valid() && id in parkings
      modifies this
      ensures Valid()
      ensures parkings == old(parkings)[id := p]
      ensures users == old(users) && bookings == old(bookings) && nextUserId == old(nextUserId)
    {
      parkings := parkings[id := p];
    }

    /** INSERT of a booking row: a fresh primary key and foreign keys that resolve. */
    method InsertBooking(id: int, b: Booking)
      requires Valid() && id !in bookings
      requires b.parkingId in parkings && b.userId in users
      modifies this
      ensures Valid()
      ensures bookings == old(bookings)[id := b]
      ensures users == old(users) && parkings == old(parkings) && nextUserId == old(nextUserId)
    {
      bookings := bookings[id := b];
    }

    /** UPDATE of an existing booking row whose foreign keys still resolve. */
    method SaveBooking(id: int, b: Booking)
      requires Valid() && id in bookings
      requires b.parkingId in parkings && b.userId in users
      modifies this
      ensures Valid()
      ensures bookings == old(bookings)[id := b]
      ensures users == old(users) && parkings == old(parkings) && nextUserId == old(nextUserId)
    {
      bookings := bookings[id := b];
    }
  }
}
