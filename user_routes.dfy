/** The account routes of `UserRoutes.js`: registration, resending the
    verification mail, verifying an account with its token and logging in,
    over a `users` table whose rows carry the verification token and its
    expiry. bcrypt, the random token, the clock and the mail transport are
    parameters: the hash and the token come in as values, the comparison
    as a function, the current time in milliseconds. Whether a database
    query is rejected, whether the comparison throws and whether sending
    the mail throws come in as flags; each handler's catch answers them
    with 500. */
module UserRoutes {
  import opened Wrappers
  import opened Js
  import opened Seqs

  /** A verification token stays valid for 24 hours. */
  const DayMs := 24 * 60 * 60 * 1000

  /** One row of `users`. The columns registration does not set (`isAdmin`
      and the contact details) keep their defaults, written `Undefined`. */
  datatype User = User(
    id: int, name: string, email: string, password: string,
    verificationToken: Option<string>, tokenExpiry: Option<int>, isVerified: bool,
    isAdmin: Js, phone: Js, alternativePhone: Js, address: Js, notificationsEnabled: Js, deliveryNotes: Js)

  /** The user object a successful login answers with: every column the
      client needs, and no password hash or token. */
  datatype LoginView = LoginView(
    id: int, name: string, email: string,
    isAdmin: Js, phone: Js, alternativePhone: Js, address: Js, notificationsEnabled: Js, deliveryNotes: Js)

  predicate HasEmail(email: string, u: User) { u.email == email }

  predicate HasToken(token: string, u: User) { u.verificationToken == Some(token) }

  /** `new Date(user.token_expiry)`: a NULL expiry is the epoch. */
  function ExpiryTime(u: User): int
  {
    u.tokenExpiry.GetOr(0)
  }

  /** The row registration inserts: unverified, with the token and an expiry
      one day after `now`. */
  function NewUser(id: int, name: string, email: string, hashed: string, token: string, now: int): (r: User)
    ensures !r.isVerified && r.verificationToken == Some(token) && ExpiryTime(r) == now + DayMs
    ensures r.id == id && r.email == email && r.password == hashed
  {
    User(id, name, email, hashed, Some(token), Some(now + DayMs), false,
         Undefined, Undefined, Undefined, Undefined, Undefined, Undefined)
  }

  /** A verified account: the flag set, the token and its expiry cleared. */
  function Verified(u: User): (r: User)
    ensures r.isVerified && r.verificationToken.None? && r.tokenExpiry.None?
    ensures r.(isVerified := u.isVerified, verificationToken := u.verificationToken, tokenExpiry := u.tokenExpiry) == u
  {
    u.(isVerified := true, verificationToken := None, tokenExpiry := None)
  }

  /** The login response for a row. */
  function View(u: User): (r: LoginView)
    ensures r.id == u.id && r.name == u.name && r.email == u.email && r.isAdmin == u.isAdmin
  {
    LoginView(u.id, u.name, u.email, u.isAdmin, u.phone, u.alternativePhone, u.address,
              u.notificationsEnabled, u.deliveryNotes)
  }

  /** The response reveals nothing of the password hash or the token: rows
      that differ only there answer the same. */
  lemma ViewHidesSecrets(u: User, hash: string, token: Option<string>, expiry: Option<int>)
    ensures View(u.(password := hash, verificationToken := token, tokenExpiry := expiry)) == View(u)
  {
  }

  /** A token handed out at registration verifies the new account for a
      whole day, as long as no older row holds the same token. */
  lemma RegisteredTokenVerifies(users: seq<User>, u: User, token: string, now: int, later: int)
    requires FirstIndex(users, t => HasToken(token, t)).None?
    requires u.verificationToken == Some(token) && later <= ExpiryTime(u)
    ensures FirstIndex(users + [u], t => HasToken(token, t)) == Some(|users|)
    ensures !(later > ExpiryTime((users + [u])[|users|]))
  {
    var all := users + [u];
    assert forall j :: 0 <= j < |users| ==> all[j] == users[j];
    assert all[|users|] == u;
  }

  /** Verifying consumes the token: once the only row holding it is
      verified, no row holds it, so the same token cannot verify again. */
  lemma {:induction false} TokenSpent(users: seq<User>, k: nat, token: string)
    requires k < |users| && HasToken(token, users[k])
    requires forall j :: 0 <= j < |users| && j != k ==> !HasToken(token, users[j])
    ensures FirstIndex(users[k := Verified(users[k])], t => HasToken(token, t)).None?
  {
    var after := users[k := Verified(users[k])];
    forall j | 0 <= j < |after|
      ensures !HasToken(token, after[j])
    {
      if j == k {
        assert after[j].verificationToken.None?;
      } else {
        assert after[j] == users[j];
      }
    }
  }

  /** The `users` table with its auto-increment counter. */
  class UserTable {
    var users: seq<User>
    var nextId: int

    /** Ids are below the counter and distinct; registration keeps emails
        distinct. */
    ghost predicate Valid()
      reads this
    {
      nextId > 0
      && (forall j :: 0 <= j < |users| ==> 0 < users[j].id < nextId)
      && (forall i, j :: 0 <= i < j < |users| ==> users[i].id != users[j].id)
      && (forall i, j :: 0 <= i < j < |users| ==> users[i].email != users[j].email)
    }

    constructor()
      ensures Valid() && users == [] && nextId == 1
    {
      users := [];
      nextId := 1;
    }

    /** `POST /api/register`: a failed lookup is 500 and an email already
        in the table 400, both inserting nothing; a failed insert is 500
        with nothing inserted; otherwise the unverified row is inserted,
        and the answer is 201, or 500 when the mail cannot be sent, the row
        staying inserted. */
    method Register(name: string, email: string, hashed: string, token: string, now: int,
                    selectFails: bool, insertFails: bool, mailFails: bool)
      returns (status: int)
      requires Valid()
      modifies this
      ensures Valid()
      ensures selectFails ==> status == 500 && users == old(users) && nextId == old(nextId)
      ensures !selectFails && FirstIndex(old(users), u => HasEmail(email, u)).Some? ==>
                status == 400 && users == old(users) && nextId == old(nextId)
      ensures !selectFails && FirstIndex(old(users), u => HasEmail(email, u)).None? && insertFails ==>
                status == 500 && users == old(users) && nextId == old(nextId)
      ensures !selectFails && FirstIndex(old(users), u => HasEmail(email, u)).None? && !insertFails ==>
                users == old(users) + [NewUser(old(nextId), name, email, hashed, token, now)]
                && nextId == old(nextId) + 1
                && status == (if mailFails then 500 else 201)
      ensures status == 201 <==>
                !selectFails && FirstIndex(old(users), u => HasEmail(email, u)).None? && !insertFails && !mailFails
    {
      if selectFails {
        return 500;
      }
      var existing := FirstIndex(users, u => HasEmail(email, u));
      if existing.Some? {
        return 400;
      }
      if insertFails {
        return 500;
      }
      var row := NewUser(nextId, name, email, hashed, token, now);
      users := users + [row];
      nextId := nextId + 1;
      status := if mailFails then 500 else 201;
    }

    /** `POST /api/resend-verification`: a failed lookup is 500, an unknown
        email 404, a verified account 400, and a failed update 500, all
        changing nothing; otherwise the account's token and expiry are
        replaced by the new token and a day from `now`, and the answer is
        200, or 500 when the mail cannot be sent, the new token staying
        stored. */
    method ResendVerification(email: string, token: string, now: int,
                              selectFails: bool, updateFails: bool, mailFails: bool)
      returns (status: int)
      requires Valid()
      modifies this
      ensures Valid() && nextId == old(nextId)
      ensures selectFails ==> status == 500 && users == old(users)
      ensures !selectFails && FirstIndex(old(users), u => HasEmail(email, u)).None? ==>
                status == 404 && users == old(users)
      ensures !selectFails && FirstIndex(old(users), u => HasEmail(email, u)).Some? ==>
                var k := FirstIndex(old(users), u => HasEmail(email, u)).value;
                if old(users)[k].isVerified then status == 400 && users == old(users)
                else if updateFails then status == 500 && users == old(users)
                else users == old(users)[k := old(users)[k].(verificationToken := Some(token),
                                                             tokenExpiry := Some(now + DayMs))]
                     && status == (if mailFails then 500 else 200)
    {
      if selectFails {
        return 500;
      }
      var found := FirstIndex(users, u => HasEmail(email, u));
      if found.None? {
        return 404;
      }
      var k := found.value;
      if users[k].isVerified {
        return 400;
      }
      if updateFails {
        return 500;
      }
      users := users[k := users[k].(verificationToken := Some(token), tokenExpiry := Some(now + DayMs))];
      status := if mailFails then 500 else 200;
    }

    /** `POST /api/verify-account`: a missing or empty token is 400 before
        any query; then a failed lookup is 500, a token no row holds 404,
        an expired one 400, and a failed update 500, all changing nothing;
        otherwise the first row holding it is verified and 200. */
    method VerifyAccount(token: Option<string>, now: int, selectFails: bool, updateFails: bool)
      returns (status: int)
      requires Valid()
      modifies this
      ensures Valid() && nextId == old(nextId)
      ensures status != 200 ==> users == old(users)
      ensures token.None? || token == Some("") ==> status == 400
      ensures token.Some? && token != Some("") ==>
                var found := FirstIndex(old(users), u => HasToken(token.value, u));
                (selectFails ==> status == 500)
                && (!selectFails && found.None? ==> status == 404)
                && (!selectFails && found.Some? && now > ExpiryTime(old(users)[found.value]) ==> status == 400)
                && (!selectFails && found.Some? && now <= ExpiryTime(old(users)[found.value]) ==>
                      if updateFails then status == 500
                      else status == 200 && users == old(users)[found.value := Verified(old(users)[found.value])])
    {
      if token.None? || token == Some("") {
        return 400;
      }
      if selectFails {
        return 500;
      }
      var t := token.value;
      var found := FirstIndex(users, u => HasToken(t, u));
      if found.None? {
        return 404;
      }
      var k := found.value;
      if now > ExpiryTime(users[k]) {
        return 400;
      }
      if updateFails {
        return 500;
      }
      users := users[k := Verified(users[k])];
      status := 200;
    }

    /** `POST /api/login`, which changes nothing: a failed lookup is 500, an
        unknown email 401, a comparison that throws (a missing password or
        hash) 500, a password that does not match the stored hash 401, an
        unverified account 403, in that order; otherwise 200 with the row's
        view. */
    method Login(email: string, password: string, selectFails: bool, compareThrows: bool,
                 compare: (string, string) -> bool)
      returns (status: int, user: Option<LoginView>)
      requires Valid()
      ensures var found := FirstIndex(users, u => HasEmail(email, u));
              (selectFails ==> status == 500)
              && (!selectFails && found.None? ==> status == 401)
              && (!selectFails && found.Some? && compareThrows ==> status == 500)
              && ((!selectFails && found.Some? && !compareThrows && !compare(password, users[found.value].password))
                    ==> status == 401)
              && ((!selectFails && found.Some? && !compareThrows && compare(password, users[found.value].password)
                   && !users[found.value].isVerified) ==> status == 403)
      ensures status == 200 <==>
                var found := FirstIndex(users, u => HasEmail(email, u));
                !selectFails && found.Some? && !compareThrows
                && compare(password, users[found.value].password) && users[found.value].isVerified
      ensures status == 200 ==>
                exists k :: 0 <= k < |users| && users[k].email == email && users[k].isVerified
                            && compare(password, users[k].password) && user == Some(View(users[k]))
      ensures status != 200 ==> user.None?
    {
      if selectFails {
        return 500, None;
      }
      var found := FirstIndex(users, u => HasEmail(email, u));
      if found.None? {
        return 401, None;
      }
      var u := users[found.value];
      if compareThrows {
        return 500, None;
      }
      if !compare(password, u.password) {
        return 401, None;
      }
      if !u.isVerified {
        return 403, None;
      }
      return 200, Some(View(u));
    }
  }
}
