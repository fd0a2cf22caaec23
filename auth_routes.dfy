/** The account routes of `routes/auth.js`: resending the verification
    mail, logging in, registering and verifying an email address, over a
    `users` table and an `email_verification_tokens` table holding at most
    one token per user. bcrypt, the random token, the clock, the mail
    service and database failures are parameters, as in `UserRoutes`. */
module AuthRoutes {
  import opened Wrappers
  import opened Seqs

  /** A verification token is stored with an expiry one hour ahead. */
  const HourMs := 3600000

  /** One row of `users`. */
  datatype User = User(id: int, name: string, email: string, password: string, isVerified: bool, isAdmin: bool)

  /** One row of `email_verification_tokens`; `userId` is its unique key. */
  datatype TokenRow = TokenRow(userId: int, token: string, expiresAt: int)

  predicate HasEmail(email: string, u: User) { u.email == email }

  predicate HasToken(token: Option<string>, t: TokenRow) { token == Some(t.token) }

  predicate OfUser(id: int, t: TokenRow) { t.userId == id }

  predicate NotToken(token: string, t: TokenRow) { t.token != token }

  /** `INSERT ... ON DUPLICATE KEY UPDATE`: the user's token row gets the new
      token and expiry in place, or a new row is added when there is none. */
  function Upsert(tokens: seq<TokenRow>, row: TokenRow): (r: seq<TokenRow>)
    ensures var k := FirstIndex(tokens, t => OfUser(row.userId, t));
            if k.Some? then r == tokens[k.value := row] else r == tokens + [row]
  {
    match FirstIndex(tokens, t => OfUser(row.userId, t))
    case Some(k) => tokens[k := row]
    case None => tokens + [row]
  }

  /** Upserting a row for a user below `bound` keeps every row's user
      below `bound`. */
  lemma UpsertBelow(tokens: seq<TokenRow>, row: TokenRow, bound: int)
    requires forall j :: 0 <= j < |tokens| ==> tokens[j].userId < bound
    requires row.userId < bound
    ensures forall j :: 0 <= j < |Upsert(tokens, row)| ==> Upsert(tokens, row)[j].userId < bound
  {
  }

  /** Upserting keeps one row per user: the user's row is the new one,
      every other user's row is kept, and no row appears twice. */
  lemma UpsertKeepsKeysUnique(tokens: seq<TokenRow>, row: TokenRow)
    requires forall i, j :: 0 <= i < j < |tokens| ==> tokens[i].userId != tokens[j].userId
    ensures var r := Upsert(tokens, row);
            (forall i, j :: 0 <= i < j < |r| ==> r[i].userId != r[j].userId)
            && (exists k :: 0 <= k < |r| && r[k] == row)
            && (forall t :: t in tokens && t.userId != row.userId ==> t in r)
  {
    var r := Upsert(tokens, row);
    var k := FirstIndex(tokens, t => OfUser(row.userId, t));
    if k.Some? {
      assert r[k.value] == row;
      forall t | t in tokens && t.userId != row.userId
        ensures t in r
      {
        var j :| 0 <= j < |tokens| && tokens[j] == t;
        assert r[j] == t;
      }
    } else {
      assert r[|tokens|] == row;
      forall t | t in tokens && t.userId != row.userId
        ensures t in r
      {
        var j :| 0 <= j < |tokens| && tokens[j] == t;
        assert r[j] == t;
      }
    }
  }

  /** At most one row per user. */
  predicate UniqueUsers(tokens: seq<TokenRow>)
  {
    forall i, j :: 0 <= i < j < |tokens| ==> tokens[i].userId != tokens[j].userId
  }

  /** `DELETE FROM email_verification_tokens WHERE token = ?`. */
  function DeleteToken(tokens: seq<TokenRow>, token: string): (r: seq<TokenRow>)
    ensures forall t :: t in r <==> t in tokens && t.token != token
    ensures IsSubsequence(r, tokens)
  {
    Filter(tokens, t => NotToken(token, t))
  }

  /** `UPDATE users SET is_verified = 1 WHERE id = ?`. */
  function MarkVerified(users: seq<User>, id: int): (r: seq<User>)
    ensures |r| == |users|
    ensures forall k :: 0 <= k < |r| ==> r[k] == (if users[k].id == id then users[k].(isVerified := true) else users[k])
    ensures forall k :: 0 <= k < |r| ==> r[k].id == users[k].id
  {
    seq(|users|, k requires 0 <= k < |users| => if users[k].id == id then users[k].(isVerified := true) else users[k])
  }

  /** Verifying a user marks that user and no one else, and a second time
      changes nothing. */
  lemma MarkVerifiedIdempotent(users: seq<User>, id: int)
    ensures MarkVerified(MarkVerified(users, id), id) == MarkVerified(users, id)
    ensures forall k :: 0 <= k < |users| && users[k].id != id ==> MarkVerified(users, id)[k] == users[k]
  {
    var once := MarkVerified(users, id);
    var twice := MarkVerified(once, id);
    forall k | 0 <= k < |users|
      ensures twice[k] == once[k]
    {
    }
  }

  /** How the database and the mail service answer a registration. */
  datatype RegisterFaults = RegisterFaults(selectFails: bool, insertFails: bool, tokenInsertFails: bool, mailFails: bool)

  /** The two tables. */
  class AuthStore {
    var users: seq<User>
    var tokens: seq<TokenRow>
    var nextId: int

    /** User ids are below the counter and distinct, token rows belong to
        ids handed out, and every user has at most one token row. */
    ghost predicate Valid()
      reads this
    {
      nextId > 0
      && (forall j :: 0 <= j < |users| ==> 0 < users[j].id < nextId)
      && (forall i, j :: 0 <= i < j < |users| ==> users[i].id != users[j].id)
      && (forall j :: 0 <= j < |tokens| ==> tokens[j].userId < nextId)
      && (forall i, j :: 0 <= i < j < |tokens| ==> tokens[i].userId != tokens[j].userId)
    }

    constructor()
      ensures Valid() && users == [] && tokens == [] && nextId == 1
    {
      users := [];
      tokens := [];
      nextId := 1;
    }

    /** `POST /resend-verification`: a failed lookup 500, an unknown email
        404, a verified account 400; otherwise the user's token row becomes
        the new token, valid for an hour from `now`, and the answer is 200,
        or 500 when the write or the mail fails (the row written in the
        latter case). The users table is never changed. */
    method ResendVerification(email: string, token: string, now: int, selectFails: bool, upsertFails: bool,
                              mailFails: bool)
      returns (status: int)
      requires Valid()
      modifies this
      ensures Valid() && users == old(users) && nextId == old(nextId)
      ensures var found := FirstIndex(old(users), u => HasEmail(email, u));
              if selectFails then status == 500 && tokens == old(tokens)
              else if found.None? then status == 404 && tokens == old(tokens)
              else if old(users)[found.value].isVerified then status == 400 && tokens == old(tokens)
              else if upsertFails then status == 500 && tokens == old(tokens)
              else tokens == Upsert(old(tokens), TokenRow(old(users)[found.value].id, token, now + HourMs))
                   && status == (if mailFails then 500 else 200)
    {
      if selectFails {
        return 500;
      }
      var found := FirstIndex(users, u => HasEmail(email, u));
      if found.None? {
        return 404;
      }
      var user := users[found.value];
      if user.isVerified {
        return 400;
      }
      if upsertFails {
        return 500;
      }
      var row := TokenRow(user.id, token, now + HourMs);
      UpsertKeepsKeysUnique(tokens, row);
      UpsertBelow(tokens, row, nextId);
      tokens := Upsert(tokens, row);
      status := if mailFails then 500 else 200;
    }

    /** `POST /register`: a failed lookup 500, an email already present 400;
        otherwise the user is inserted unverified and not an admin, then the
        token row valid for an hour, each insert failing with 500 and
        leaving what was written before it; a mail failure is 500 with both
        rows written; otherwise 201. */
    method Register(name: string, email: string, hashed: string, token: string, now: int, faults: RegisterFaults)
      returns (status: int)
      requires Valid()
      modifies this
      ensures Valid()
      ensures faults.selectFails || FirstIndex(old(users), u => HasEmail(email, u)).Some? || faults.insertFails ==>
                users == old(users) && tokens == old(tokens) && nextId == old(nextId)
                && status == (if faults.selectFails then 500
                              else if FirstIndex(old(users), u => HasEmail(email, u)).Some? then 400
                              else 500)
      ensures status == 201 <==>
                !faults.selectFails && FirstIndex(old(users), u => HasEmail(email, u)).None?
                && !faults.insertFails && !faults.tokenInsertFails && !faults.mailFails
      ensures !faults.selectFails && FirstIndex(old(users), u => HasEmail(email, u)).None? && !faults.insertFails ==>
                users == old(users) + [User(old(nextId), name, email, hashed, false, false)]
                && nextId == old(nextId) + 1
                && tokens == (if faults.tokenInsertFails then old(tokens)
                              else old(tokens) + [TokenRow(old(nextId), token, now + HourMs)])
    {
      if faults.selectFails {
        return 500;
      }
      if FirstIndex(users, u => HasEmail(email, u)).Some? {
        return 400;
      }
      if faults.insertFails {
        return 500;
      }
      var insertId := nextId;
      users := users + [User(insertId, name, email, hashed, false, false)];
      nextId := nextId + 1;
      if faults.tokenInsertFails {
        return 500;
      }
      // a fresh id has no token row yet, so the plain insert keeps one row per user
      assert forall j :: 0 <= j < |tokens| ==> tokens[j].userId != insertId;
      tokens := tokens + [TokenRow(insertId, token, now + HourMs)];
      status := if faults.mailFails then 500 else 201;
    }

    /** `GET /verify-email` as written: a failed lookup or a token no row
        holds is 400; otherwise the user of the first row holding it is
        marked verified, 500 when that update fails, and then the token's
        rows are deleted (unless the unawaited delete fails) and 200. The
        expiry is never consulted. */
    method VerifyEmailAsWritten(token: Option<string>, selectFails: bool, updateFails: bool, deleteFails: bool)
      returns (status: int)
      requires Valid()
      modifies this
      ensures Valid() && nextId == old(nextId)
      ensures var found := FirstIndex(old(tokens), t => HasToken(token, t));
              if selectFails || found.None? then status == 400 && users == old(users) && tokens == old(tokens)
              else if updateFails then status == 500 && users == old(users) && tokens == old(tokens)
              else status == 200 && users == MarkVerified(old(users), old(tokens)[found.value].userId)
                   && tokens == (if deleteFails then old(tokens) else DeleteToken(old(tokens), token.value))
    {
      var found := FirstIndex(tokens, t => HasToken(token, t));
      if selectFails || found.None? {
        return 400;
      }
      var userId := tokens[found.value].userId;
      if updateFails {
        return 500;
      }
      users := MarkVerified(users, userId);
      if !deleteFails {
        DeleteKeepsValid(tokens, token.value, nextId);
        tokens := DeleteToken(tokens, token.value);
      }
      status := 200;
    }

    /** `GET /verify-email` with the expiry the answer's message speaks of
        ("invalid or expired token"): a token past its `expires_at` is
        answered 400 with nothing changed, like an unknown one. */
    method VerifyEmail(token: Option<string>, now: int, selectFails: bool, updateFails: bool, deleteFails: bool)
      returns (status: int)
      requires Valid()
      modifies this
      ensures Valid() && nextId == old(nextId)
      ensures var found := FirstIndex(old(tokens), t => HasToken(token, t));
              found.Some? && now > old(tokens)[found.value].expiresAt ==>
                status == 400 && users == old(users) && tokens == old(tokens)
      ensures var found := FirstIndex(old(tokens), t => HasToken(token, t));
              status == 200 <==> !selectFails && found.Some? && now <= old(tokens)[found.value].expiresAt && !updateFails
      ensures var found := FirstIndex(old(tokens), t => HasToken(token, t));
              status == 200 ==>
                users == MarkVerified(old(users), old(tokens)[found.value].userId)
                && tokens == (if deleteFails then old(tokens) else DeleteToken(old(tokens), token.value))
      ensures status != 200 ==> users == old(users) && tokens == old(tokens)
    {
      var found := FirstIndex(tokens, t => HasToken(token, t));
      if !selectFails && found.Some? && now > tokens[found.value].expiresAt {
        return 400;
      }
      status := VerifyEmailAsWritten(token, selectFails, updateFails, deleteFails);
    }

    /** `POST /login` as written: a failed lookup or an unknown email is 401
        and an unverified account 403, both before the password is looked
        at. A verified account's row is resolved as a single object, which
        `const [user] = ...` then tries to destructure as an array; that
        throws, and the catch answers 500. The comparison after it would
        fail as well, since it reads `user.Password`, a column the row does
        not have. So every verified login is 500. */
    method LoginAsWritten(email: string, password: string, selectFails: bool) returns (status: int, user: Option<User>)
      requires Valid()
      ensures var found := FirstIndex(users, u => HasEmail(email, u));
              status == (if selectFails || found.None? then 401
                         else if !users[found.value].isVerified then 403
                         else 500)
      ensures user.None?
    {
      var found := FirstIndex(users, u => HasEmail(email, u));
      if selectFails || found.None? {
        return 401, None;
      }
      if !users[found.value].isVerified {
        return 403, None;
      }
      return 500, None;
    }

    /** `POST /login` with the row taken as it is resolved and compared
        against the stored `password` column: after
        the 401 and 403 answers above, a password that does not match the
        hash is 401, and a match is 200 with the whole row, hash included. */
    method Login(email: string, password: string, selectFails: bool, compare: (string, string) -> bool)
      returns (status: int, user: Option<User>)
      requires Valid()
      ensures var found := FirstIndex(users, u => HasEmail(email, u));
              status == (if selectFails || found.None? then 401
                         else if !users[found.value].isVerified then 403
                         else if !compare(password, users[found.value].password) then 401
                         else 200)
      ensures status == 200 ==>
                var found := FirstIndex(users, u => HasEmail(email, u));
                user == Some(users[found.value]) && user.value.email == email && user.value.isVerified
      ensures status != 200 ==> user.None?
    {
      var found := FirstIndex(users, u => HasEmail(email, u));
      if selectFails || found.None? {
        return 401, None;
      }
      var u := users[found.value];
      if !u.isVerified {
        return 403, None;
      }
      if !compare(password, u.password) {
        return 401, None;
      }
      return 200, Some(u);
    }

    /** The login that shows the two handlers apart: a verified user with the
        right password gets 500 from the handler as written and 200 from the
        corrected one. */
    method VerifiedLoginFails(email: string, password: string, compare: (string, string) -> bool)
      returns (asWritten: int, corrected: int)
      requires Valid()
      requires exists k :: 0 <= k < |users| && users[k].email == email
      requires var found := FirstIndex(users, u => HasEmail(email, u));
               found.Some? && users[found.value].isVerified && compare(password, users[found.value].password)
      ensures asWritten == 500 && corrected == 200
    {
      var u1, u2;
      asWritten, u1 := LoginAsWritten(email, password, false);
      corrected, u2 := Login(email, password, false, compare);
    }
  }

  /** Deleting rows keeps every remaining user's row unique and every row
      belonging to an id handed out. */
  lemma {:induction false} DeleteKeepsValid(tokens: seq<TokenRow>, token: string, nextId: int)
    requires forall j :: 0 <= j < |tokens| ==> tokens[j].userId < nextId
    requires UniqueUsers(tokens)
    ensures UniqueUsers(DeleteToken(tokens, token))
    ensures forall j :: 0 <= j < |DeleteToken(tokens, token)| ==> DeleteToken(tokens, token)[j].userId < nextId
    decreases |tokens|
  {
    var r := DeleteToken(tokens, token);
    if tokens != [] {
      DeleteKeepsValid(tokens[1..], token, nextId);
      var rest := DeleteToken(tokens[1..], token);
      if tokens[0].token != token {
        assert r == [tokens[0]] + rest;
        forall i, j | 0 <= i < j < |r|
          ensures r[i].userId != r[j].userId
        {
          if i == 0 {
            assert r[j] == rest[j - 1] && rest[j - 1] in rest;
            assert r[j] in tokens[1..];
            var m :| 0 <= m < |tokens[1..]| && tokens[1..][m] == r[j];
            assert tokens[m + 1] == r[j];
            assert r[0] == tokens[0];
          } else {
            assert r[i] == rest[i - 1] && r[j] == rest[j - 1];
          }
        }
      } else {
        assert r == rest;
      }
    }
    forall j | 0 <= j < |r|
      ensures r[j].userId < nextId
    {
      assert r[j] in tokens;
    }
  }
}
