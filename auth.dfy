/**
 * The decisions the views take from the X-User-Id header: how the header
 * resolves to a principal, which endpoints let which principals through,
 * and which bookings a principal is shown.
 */
module Auth {
  import opened Wrappers
  import opened Models

  const OK := 200
  const CREATED := 201
  const BAD_REQUEST := 400
  const UNAUTHORIZED := 401
  const FORBIDDEN := 403
  const NOT_FOUND := 404
  /** An exception the view does not catch. */
  const SERVER_ERROR := 500

  /** The X-User-Id request header. */
  datatype Header = Absent | Present(text: string)

  // ---------------------------------------------------------------------------
  // int(): an optional sign followed by decimal digits

  predicate IsDigit(c: char) {
    '0' <= c <= '9'
  }

  predicate AllDigits(s: string) {
    forall i :: 0 <= i < |s| ==> IsDigit(s[i])
  }

  function DigitsValue(s: string): nat
    requires AllDigits(s)
  {
    if s == [] then 0
    else DigitsValue(s[..|s| - 1]) * 10 + (s[|s| - 1] as int - '0' as int)
  }

  /** The integer a header value stands for; None where int() raises ValueError. */
  function ParseInt(s: string): (r: Option<int>)
    ensures r.Some? ==> |s| > 0 && forall i :: 0 < i < |s| ==> IsDigit(s[i])
    ensures r.Some? ==> IsDigit(s[0]) || ((s[0] == '-' || s[0] == '+') && |s| > 1)
    ensures r.Some? && s[0] == '-' ==> r.value <= 0
    ensures r.Some? && s[0] != '-' ==> r.value >= 0
    ensures |s| > 0 && AllDigits(s) ==> r == Some(DigitsValue(s))
  {
    if |s| > 0 && (s[0] == '-' || s[0] == '+') then
      var digits := s[1..];
      if |digits| > 0 && AllDigits(digits) then
        var magnitude: int := DigitsValue(digits);
        Some(if s[0] == '-' then -magnitude else magnitude)
      else None
    else if |s| > 0 && AllDigits(s) then Some(DigitsValue(s))
    else None
  }

  /**
   * Text int() cannot read: a character that is neither a digit nor a
   * leading sign, or a sign with no digits after it.
   */
  predicate NotAnInteger(s: string) {
    || (exists i :: 0 <= i < |s| && !IsDigit(s[i]) && !(i == 0 && (s[0] == '-' || s[0] == '+')))
    || s == "-" || s == "+"
  }

  /** int() rejects exactly the empty text and the text that is not an integer. */
  lemma ParseIntRejects(s: string)
    ensures ParseInt(s).None? <==> s == "" || NotAnInteger(s)
  {
    if s != "" && NotAnInteger(s) && s != "-" && s != "+" {
      var i :| 0 <= i < |s| && !IsDigit(s[i]) && !(i == 0 && (s[0] == '-' || s[0] == '+'));
      if s[0] == '-' || s[0] == '+' {
        assert s[1..][i - 1] == s[i];
      }
    }
    if ParseInt(s).None? && s != "" {
      if s[0] == '-' || s[0] == '+' {
        if |s| > 1 {
          var j :| 0 <= j < |s[1..]| && !IsDigit(s[1..][j]);
          assert s[j + 1] == s[1..][j];
        }
      } else {
        var i :| 0 <= i < |s| && !IsDigit(s[i]);
        assert i != 0 || !(s[0] == '-' || s[0] == '+');
      }
    }
  }

  /** The decimal rendering of a natural number, as a client would send an id. */
  function DecimalNat(n: nat): string {
    if n < 10 then [('0' as int + n) as char]
    else DecimalNat(n / 10) + [('0' as int + n % 10) as char]
  }

  function Decimal(n: int): string {
    if n < 0 then "-" + DecimalNat(-n) else DecimalNat(n)
  }

  lemma {:induction false} DecimalNatDigits(n: nat)
    ensures |DecimalNat(n)| > 0 && AllDigits(DecimalNat(n)) && DecimalNat(n)[0] != '-' && DecimalNat(n)[0] != '+'
    ensures DigitsValue(DecimalNat(n)) == n
  {
    if n >= 10 {
      DecimalNatDigits(n / 10);
      var s := DecimalNat(n);
      assert s[..|s| - 1] == DecimalNat(n / 10);
    }
  }

  /** int() reads back every id a client renders in decimal. */
  lemma ParseDecimal(n: int)
    ensures ParseInt(Decimal(n)) == Some(n)
  {
    if n < 0 {
      DecimalNatDigits(-n);
      assert Decimal(n)[1..] == DecimalNat(-n);
    } else {
      DecimalNatDigits(n);
    }
  }

  // ---------------------------------------------------------------------------
  // Principal resolution

  /**
   * What the header makes of the caller: no truthy header at all, a header
   * that int() rejects or that names no user, or an existing user.
   */
  datatype Principal = Anonymous | Unresolved | Resolved(id: int, isAdmin: bool)

  function Resolve(h: Header, users: map<int, User>): (r: Principal)
    ensures r.Anonymous? <==> h.Absent? || h.text == ""
    ensures r.Resolved? ==>
      h.Present? && ParseInt(h.text) == Some(r.id) && r.id in users && r.isAdmin == users[r.id].isAdmin
    ensures r.Unresolved? <==>
      h.Present? && h.text != "" && (ParseInt(h.text).None? || ParseInt(h.text).value !in users)
  {
    if h.Absent? || h.text == "" then Anonymous
    else match ParseInt(h.text)
      case None => Unresolved
      case Some(id) => if id in users then Resolved(id, users[id].isAdmin) else Unresolved
  }

  /** A user who sends their own id is resolved to themselves. */
  lemma ResolveOwnId(id: int, users: map<int, User>)
    requires id in users
    ensures Resolve(Present(Decimal(id)), users) == Resolved(id, users[id].isAdmin)
  {
    ParseDecimal(id);
    DecimalNatDigits(if id < 0 then -id else id);
  }

  /** A header naming an id that is not a user resolves to nobody. */
  lemma ResolveUnknownId(id: int, users: map<int, User>)
    requires id !in users
    ensures Resolve(Present(Decimal(id)), users) == Unresolved
  {
    ParseDecimal(id);
    DecimalNatDigits(if id < 0 then -id else id);
  }

  /** A header that is not an integer resolves to nobody, whoever is in the table. */
  lemma NonNumericHeaderUnresolved(s: string, users: map<int, User>)
    requires NotAnInteger(s)
    ensures Resolve(Present(s), users) == Unresolved
  {
    ParseIntRejects(s);
  }

  // ---------------------------------------------------------------------------
  // Per-endpoint policy

  datatype Decision = Allow | Deny(status: int)

  /** The admin-or-owner rule the endpoints are meant to enforce, for a resolved principal. */
  predicate AdminOrOwner(p: Principal, owner: int)
    requires p.Resolved?
  {
    p.isAdmin || p.id == owner
  }

  /**
   * get_user, delete_user and get_booking: only a resolved non-admin other
   * than the owner is refused; an unresolvable header is ignored.
   */
  function OwnerAccess(p: Principal, owner: int): (d: Decision)
    ensures d == Allow || d == Deny(FORBIDDEN)
    ensures p.Resolved? ==> (d == Allow <==> AdminOrOwner(p, owner))
    ensures !p.Resolved? ==> d == Allow
  {
    if p.Resolved? && !p.isAdmin && p.id != owner then Deny(FORBIDDEN) else Allow
  }

  /** update_booking and delete_booking: an unresolvable header is refused with 401. */
  function BookingWriteAccess(p: Principal, owner: int): (d: Decision)
    ensures d == Allow || d == Deny(FORBIDDEN) || d == Deny(UNAUTHORIZED)
    ensures p.Resolved? ==> (d == Allow <==> AdminOrOwner(p, owner)) && d != Deny(UNAUTHORIZED)
    ensures p.Unresolved? ==> d == Deny(UNAUTHORIZED)
    ensures p.Anonymous? ==> d == Allow
  {
    match p
    case Anonymous => Allow
    case Unresolved => Deny(UNAUTHORIZED)
    case Resolved(id, isAdmin) => if !isAdmin && id != owner then Deny(FORBIDDEN) else Allow
  }

  /** The booking POST: only a resolved principal may create, and becomes the owner. */
  function BookingCreator(p: Principal): (r: Result<int, int>)
    ensures r.Ok? <==> p.Resolved?
    ensures r.Ok? ==> r.value == p.id
    ensures r.Err? ==> r.error == UNAUTHORIZED
  {
    if p.Resolved? then Ok(p.id) else Err(UNAUTHORIZED)
  }

  /** Reading and writing a booking are decided alike except for an unresolvable header. */
  lemma ReadWriteDifferOnlyWhenUnresolved(p: Principal, owner: int)
    ensures OwnerAccess(p, owner) != BookingWriteAccess(p, owner) <==> p.Unresolved?
  {
  }

  // ---------------------------------------------------------------------------
  // Booking list filter

  /**
   * The bookings GET returns: everything to an admin and to a caller with no
   * header, a non-admin's own bookings, nothing for an unresolvable header.
   */
  function VisibleBookings(p: Principal, bookings: map<int, Booking>): (r: map<int, Booking>)
    ensures forall id :: id in r ==> id in bookings && r[id] == bookings[id]
    ensures p.Anonymous? || (p.Resolved? && p.isAdmin) ==> r == bookings
    ensures p.Unresolved? ==> r == map[]
    ensures p.Resolved? && !p.isAdmin ==>
      forall id :: id in r <==> id in bookings && bookings[id].userId == p.id
  {
    match p
    case Anonymous => bookings
    case Unresolved => map[]
    case Resolved(id, isAdmin) =>
      if isAdmin then bookings
      else map b | b in bookings && bookings[b].userId == id :: bookings[b]
  }

  /** A non-admin is shown a booking exactly when the single-booking read would let them have it. */
  lemma VisibleAgreesWithRead(p: Principal, bookings: map<int, Booking>, id: int)
    requires p.Resolved? && id in bookings
    ensures id in VisibleBookings(p, bookings) <==> OwnerAccess(p, bookings[id].userId) == Allow
  {
  }

  /** An unresolvable header lists no booking, yet the single-booking read still hands each one over. */
  lemma UnresolvedReadsWhatItCannotList(p: Principal, bookings: map<int, Booking>, id: int)
    requires p.Unresolved? && id in bookings
    ensures id !in VisibleBookings(p, bookings) && OwnerAccess(p, bookings[id].userId) == Allow
  {
  }
}
