/** The sign-in page: password login, registration, e-mail verification by a
    six-digit code, resending that code, and Google sign-in.  Every handler
    works on the users collection; its answer is the JSON reply the page
    scripts read. */
module Index {
  import opened Domain
  import Text

  /** How long a verification code stays valid. */
  const CodeLifetime: int := 15 * MinuteMs

  /** The password hash stored for accounts created through Google sign-in. */
  const GoogleHash: string := "GOOGLE_AUTH_USER"

  /** The JSON a handler answers with.  A status other than 200 is the HTTP
      status the reply is sent with. */
  datatype Reply =
    | Fail(status: int, message: string)   // success = false
    | SignedIn(redirectUrl: string)        // success = true, with the page to open
    | Unverified(email: string)            // 401, needsVerification = true
    | Registered(email: string)            // success = true, needsVerification = true
    | CodeSent                             // success = true, "New code sent."
    | ServerError                          // an exception nobody catches

  /** Where a signed-in user lands: customers in the shop, everyone else on
      the dashboard. */
  function RedirectFor(role: string): (r: string)
    ensures r == "/Shop" <==> role == "Customer"
    ensures r == "/Shop" || r == "/Dash"
  {
    if role == "Customer" then "/Shop" else "/Dash"
  }

  // ---------------------------------------------------------------- lookups

  /** Find(u => u.Email == email).FirstOrDefault(). */
  function FindByEmail(users: seq<User>, email: string): (r: Option<nat>)
    ensures r.None? <==> forall k :: 0 <= k < |users| ==> users[k].email != email
    ensures r.Some? ==> r.value < |users| && users[r.value].email == email
                        && forall k :: 0 <= k < r.value ==> users[k].email != email
  {
    FirstIndex(users, (u: User) => u.email == email)
  }

  /** The login field matches a user's name or address. */
  predicate LoginMatches(u: User, login: string) {
    u.username == login || u.email == login
  }

  /** Find(u => u.Username == login || u.Email == login).FirstOrDefault(). */
  function FindByLogin(users: seq<User>, login: string): (r: Option<nat>)
    ensures r.None? <==> forall k :: 0 <= k < |users| ==> !LoginMatches(users[k], login)
    ensures r.Some? ==> r.value < |users| && LoginMatches(users[r.value], login)
                        && forall k :: 0 <= k < r.value ==> !LoginMatches(users[k], login)
  {
    FirstIndex(users, (u: User) => LoginMatches(u, login))
  }

  /** Any(u => u.Username == name). */
  predicate NameTaken(users: seq<User>, name: string) {
    exists k :: 0 <= k < |users| && users[k].username == name
  }

  /** Any(u => u.Email == email). */
  predicate EmailTaken(users: seq<User>, email: string) {
    exists k :: 0 <= k < |users| && users[k].email == email
  }

  /** Every user document has its own id. */
  predicate UniqueUserIds(users: seq<User>) {
    forall i, j :: 0 <= i < |users| && 0 <= j < |users| && i != j ==> users[i].id != users[j].id
  }

  /** The document an update filtered by Id touches. */
  function IndexOfUser(users: seq<User>, id: string): (r: Option<nat>)
    ensures r.None? <==> forall k :: 0 <= k < |users| ==> users[k].id != id
    ensures r.Some? ==> r.value < |users| && users[r.value].id == id
                        && forall k :: 0 <= k < r.value ==> users[k].id != id
  {
    FirstIndex(users, (u: User) => u.id == id)
  }

  /** With unique ids, the update filtered by a found user's id touches that
      user and no other. */
  lemma IndexOfUserFound(users: seq<User>, k: nat)
    requires UniqueUserIds(users) && k < |users|
    ensures IndexOfUser(users, users[k].id) == Some(k)
  {
  }

  /** Appending a user under an id nobody has keeps the ids unique. */
  lemma AppendUnique(users: seq<User>, u: User)
    requires UniqueUserIds(users)
    requires forall k :: 0 <= k < |users| ==> users[k].id != u.id
    ensures UniqueUserIds(users + [u])
  {
    var r := users + [u];
    forall i, j | 0 <= i < |r| && 0 <= j < |r| && i != j ensures r[i].id != r[j].id {
      if i < |users| && j < |users| {
        assert r[i] == users[i] && r[j] == users[j];
      }
    }
  }

  // ---------------------------------------------------------------- updates

  /** What an UpdateOne sets: the fields of a successful verification, or a
      new code with its expiry. */
  datatype UserUpdate =
    | MarkVerified
    | SetCode(token: string, expires: Time)

  function Apply(u: User, upd: UserUpdate): User {
    match upd
    case MarkVerified =>
      u.(isEmailVerified := true, emailVerificationToken := None, emailVerificationTokenExpires := None)
    case SetCode(token, expires) =>
      u.(emailVerificationToken := Some(token), emailVerificationTokenExpires := Some(expires))
  }

  /** The user after a successful verification. */
  function Verified(u: User): User {
    Apply(u, MarkVerified)
  }

  /** The user after code number `code` was issued at `now`. */
  function Issued(u: User, code: nat, now: Time): User {
    Apply(u, SetCode(Text.NatToString(code), now + CodeLifetime))
  }

  /** Random.Next(100000, 999999): the drawn codes. */
  predicate CodeDraw(code: int) {
    100000 <= code < 999999
  }

  /** UpdateOne(u => u.Id == id, upd): the first user with that id changes,
      nothing else does. */
  method UpdateOne(db: Database, id: string, upd: UserUpdate)
    modifies db`users
    ensures IndexOfUser(old(db.users), id).None? ==> db.users == old(db.users)
    ensures IndexOfUser(old(db.users), id).Some? ==>
              var j := IndexOfUser(old(db.users), id).value;
              db.users == old(db.users)[j := Apply(old(db.users)[j], upd)]
  {
    var found := IndexOfUser(db.users, id);
    if found.Some? {
      var j := found.value;
      db.users := db.users[j := Apply(db.users[j], upd)];
    }
  }

  /** A user whose code was issued, as UpdateOne leaves the collection. */
  predicate IssuedAt(before: seq<User>, after: seq<User>, k: nat, code: nat, now: Time) {
    k < |before| && after == before[k := Issued(before[k], code, now)]
  }

  /** SetAndSendVerificationCode: draw a code, store it with an expiry fifteen
      minutes on, and mail it.  `mailError` is the exception the mail
      server raises, None when the mail goes out; the code is stored either way. */
  method SetAndSendVerificationCode(db: Database, k: nat, code: int, now: Time, mailError: Option<string>)
      returns (sent: bool)
    requires UniqueUserIds(db.users) && k < |db.users|
    requires CodeDraw(code)
    modifies db`users
    ensures IssuedAt(old(db.users), db.users, k, code, now)
    ensures sent <==> mailError.None?
  {
    IndexOfUserFound(db.users, k);
    UpdateOne(db, db.users[k].id, SetCode(Text.NatToString(code), now + CodeLifetime));
    sent := mailError.None?;
  }

  /** Issuing a code keeps the ids unique. */
  lemma IssuedUnique(before: seq<User>, after: seq<User>, k: nat, code: nat, now: Time)
    requires UniqueUserIds(before) && IssuedAt(before, after, k, code, now)
    ensures UniqueUserIds(after)
  {
    forall i, j | 0 <= i < |after| && 0 <= j < |after| && i != j ensures after[i].id != after[j].id {
      assert after[i].id == before[i].id && after[j].id == before[j].id;
    }
  }

  // ------------------------------------------------------- the code check

  /** Code expiry as the verification handler reads it: a missing expiry
      compares as not earlier than now, so it has not expired. */
  predicate Expired(u: User, now: Time) {
    u.emailVerificationTokenExpires.Some? && u.emailVerificationTokenExpires.value < now
  }

  /** The login handler's test for sending a new code: none is pending, or
      the pending one has run out. */
  predicate NeedsNewCode(u: User, now: Time) {
    u.emailVerificationTokenExpires.None? || u.emailVerificationTokenExpires.value < now
  }

  datatype Verdict = AlreadyVerified | Rejected | Accepted

  /** What the verification handler decides for a user it found. */
  function Decide(u: User, code: string, now: Time): (v: Verdict)
    ensures v == AlreadyVerified <==> u.isEmailVerified
    ensures v == Accepted ==> u.emailVerificationToken == Some(code)
  {
    if u.isEmailVerified then AlreadyVerified
    else if u.emailVerificationToken != Some(code) || Expired(u, now) then Rejected
    else Accepted
  }

  /** A code drawn by the page has six digits, so the form's length rule on
      the code field lets it through. */
  lemma DrawnCodeHasSixDigits(code: int)
    requires CodeDraw(code)
    ensures |Text.NatToString(code)| == 6
    ensures forall i :: 0 <= i < 6 ==> Text.IsDigit(Text.NatToString(code)[i])
  {
    assert Text.Pow10(5) == 100000 && Text.Pow10(6) == 1000000;
    Text.NatToStringLength(code, 6);
  }

  /** An unverified user who enters the code just issued within fifteen
      minutes is accepted. */
  lemma IssueThenVerify(u: User, code: nat, now: Time, t: Time)
    requires !u.isEmailVerified
    requires t <= now + CodeLifetime
    ensures Decide(Issued(u, code, now), Text.NatToString(code), t) == Accepted
  {
  }

  /** Any other string is rejected, however soon it is entered. */
  lemma WrongCodeRejected(u: User, code: nat, now: Time, t: Time, entered: string)
    requires !u.isEmailVerified
    requires entered != Text.NatToString(code)
    ensures Decide(Issued(u, code, now), entered, t) == Rejected
  {
  }

  /** The right code is rejected once fifteen minutes have passed. */
  lemma LateCodeRejected(u: User, code: nat, now: Time, t: Time)
    requires !u.isEmailVerified
    requires t > now + CodeLifetime
    ensures Decide(Issued(u, code, now), Text.NatToString(code), t) == Rejected
  {
  }

  /** A new code replaces the old one: after a second draw with another
      number, the first code is rejected. */
  lemma ReissueRevokes(u: User, first: nat, second: nat, now1: Time, now2: Time, t: Time)
    requires !u.isEmailVerified && first != second
    ensures Decide(Issued(Issued(u, first, now1), second, now2), Text.NatToString(first), t) == Rejected
  {
    Text.ParseNatToString(first);
    Text.ParseNatToString(second);
  }

  /** Verification is for good: a verified user stays verified whatever is
      entered later, and verifying clears the code. */
  lemma VerifiedIsFinal(u: User, code: string, t: Time)
    ensures Decide(Verified(u), code, t) == AlreadyVerified
    ensures Verified(u).emailVerificationToken.None? && Verified(u).emailVerificationTokenExpires.None?
    ensures Verified(Verified(u)) == Verified(u)
  {
  }

  /** A code that has expired for the verification handler also makes the
      login handler send a new one; the two tests part only when no expiry is
      stored, which login treats as stale and verification as still valid. */
  lemma ExpiryTests(u: User, now: Time)
    ensures Expired(u, now) ==> NeedsNewCode(u, now)
    ensures NeedsNewCode(u, now) && !Expired(u, now) <==> u.emailVerificationTokenExpires.None?
  {
  }

  /** Logging in again within fifteen minutes of a code being sent does not
      send another. */
  lemma PendingCodeKept(u: User, code: nat, now: Time, t: Time)
    requires now <= t <= now + CodeLifetime
    ensures !NeedsNewCode(Issued(u, code, now), t)
  {
  }

  // --------------------------------------------------------------- handlers

  /** OnPostVerifyCodeAsync.  `formValid` is the model state of the form. */
  method VerifyCode(db: Database, formValid: bool, email: string, code: string, now: Time)
      returns (reply: Reply)
    requires UniqueUserIds(db.users)
    modifies db`users
    ensures !formValid ==> reply == Fail(200, "Invalid Data") && db.users == old(db.users)
    ensures formValid && FindByEmail(old(db.users), email).None? ==>
              reply == Fail(200, "User not found.") && db.users == old(db.users)
    ensures formValid && FindByEmail(old(db.users), email).Some? ==>
              var k := FindByEmail(old(db.users), email).value;
              var u := old(db.users)[k];
              match Decide(u, code, now)
              case AlreadyVerified => reply == SignedIn(RedirectFor(u.role)) && db.users == old(db.users)
              case Rejected => reply == Fail(200, "Invalid or expired code.") && db.users == old(db.users)
              case Accepted => reply == SignedIn(RedirectFor(u.role)) && db.users == old(db.users)[k := Verified(u)]
    ensures UniqueUserIds(db.users)
  {
    if !formValid {
      return Fail(200, "Invalid Data");
    }
    var found := FindByEmail(db.users, email);
    if found.None? {
      return Fail(200, "User not found.");
    }
    var k := found.value;
    var user := db.users[k];
    if user.isEmailVerified {
      return SignedIn(RedirectFor(user.role));
    }
    if user.emailVerificationToken != Some(code) || Expired(user, now) {
      return Fail(200, "Invalid or expired code.");
    }
    IndexOfUserFound(db.users, k);
    UpdateOne(db, user.id, MarkVerified);
    reply := SignedIn(RedirectFor(user.role));
    IdsKept(old(db.users), k, Verified(user));
  }

  /** Replacing one user by a copy with the same id keeps the ids unique. */
  lemma IdsKept(users: seq<User>, k: nat, u: User)
    requires UniqueUserIds(users) && k < |users| && u.id == users[k].id
    ensures UniqueUserIds(users[k := u])
  {
    var r := users[k := u];
    forall i, j | 0 <= i < |r| && 0 <= j < |r| && i != j ensures r[i].id != r[j].id {
      assert r[i].id == users[i].id && r[j].id == users[j].id;
    }
  }

  /** OnPostLoginAsync.  `passwordOk` is BCrypt.Verify(password, hash);
      `code` is the number a code sent now would carry. */
  method Login(db: Database, formValid: bool, login: string, password: string,
               passwordOk: (string, string) -> bool, code: int, now: Time, mailError: Option<string>)
      returns (reply: Reply)
    requires UniqueUserIds(db.users)
    requires CodeDraw(code)
    modifies db`users
    ensures !formValid ==> reply == Fail(400, "Invalid data submitted.") && db.users == old(db.users)
    ensures formValid && (FindByLogin(old(db.users), login).None? ||
                          !passwordOk(password, old(db.users)[FindByLogin(old(db.users), login).value].passwordHash)) ==>
              reply == Fail(401, "Invalid username/email or password.") && db.users == old(db.users)
    ensures formValid && FindByLogin(old(db.users), login).Some? ==>
              var k := FindByLogin(old(db.users), login).value;
              var u := old(db.users)[k];
              passwordOk(password, u.passwordHash) ==>
                if u.isEmailVerified then
                  reply == SignedIn(RedirectFor(u.role)) && db.users == old(db.users)
                else if NeedsNewCode(u, now) then
                  IssuedAt(old(db.users), db.users, k, code, now)
                  && reply == (if mailError.None? then Unverified(u.email) else ServerError)
                else
                  reply == Unverified(u.email) && db.users == old(db.users)
    ensures UniqueUserIds(db.users)
  {
    if !formValid {
      return Fail(400, "Invalid data submitted.");
    }
    var found := FindByLogin(db.users, login);
    if found.None? || !passwordOk(password, db.users[found.value].passwordHash) {
      return Fail(401, "Invalid username/email or password.");
    }
    var k := found.value;
    var user := db.users[k];
    if !user.isEmailVerified {
      if NeedsNewCode(user, now) {
        var sent := SetAndSendVerificationCode(db, k, code, now, mailError);
        IssuedUnique(old(db.users), db.users, k, code, now);
        if !sent {
          return ServerError;
        }
      }
      return Unverified(user.email);
    }
    reply := SignedIn(RedirectFor(user.role));
  }

  /** The account a registration creates, before its first code is stored. */
  function Registrant(id: string, username: string, email: string, hash: string, role: string): (u: User)
    ensures !u.isEmailVerified && u.role == role && u.username == username && u.email == email
  {
    User(id, username, email, hash, false, None, None, role)
  }

  /** OnPostRegisterAsync.  `errors` are the form's validation messages,
      `hash` is BCrypt.HashPassword, `freshId` the id the database gives the
      new document. */
  method Register(db: Database, formValid: bool, errors: string, username: string, email: string,
                  password: string, role: string, hash: string -> string, freshId: string,
                  code: int, now: Time, mailError: Option<string>)
      returns (reply: Reply)
    requires UniqueUserIds(db.users)
    requires forall k :: 0 <= k < |db.users| ==> db.users[k].id != freshId
    requires CodeDraw(code)
    modifies db`users
    ensures !formValid ==> reply == Fail(400, errors) && db.users == old(db.users)
    ensures formValid && NameTaken(old(db.users), username) ==>
              reply == Fail(200, "Username already taken.") && db.users == old(db.users)
    ensures formValid && !NameTaken(old(db.users), username) && EmailTaken(old(db.users), email) ==>
              reply == Fail(200, "Email already taken.") && db.users == old(db.users)
    ensures formValid && !NameTaken(old(db.users), username) && !EmailTaken(old(db.users), email) ==>
              db.users == old(db.users) + [Issued(Registrant(freshId, username, email, hash(password), role), code, now)]
              && reply == (if mailError.None? then Registered(email) else Fail(500, "Error: " + mailError.value))
    ensures UniqueUserIds(db.users)
  {
    if !formValid {
      return Fail(400, errors);
    }
    if exists k :: 0 <= k < |db.users| && db.users[k].username == username {
      return Fail(200, "Username already taken.");
    }
    if exists k :: 0 <= k < |db.users| && db.users[k].email == email {
      return Fail(200, "Email already taken.");
    }
    var newUser := Registrant(freshId, username, email, hash(password), role);
    AppendUnique(db.users, newUser);
    db.users := db.users + [newUser];
    var n := |db.users| - 1;
    var sent := SetAndSendVerificationCode(db, n, code, now, mailError);
    IssuedUnique(old(db.users) + [newUser], db.users, n, code, now);
    if sent {
      reply := Registered(email);
    } else {
      reply := Fail(500, "Error: " + mailError.value);
    }
  }

  /** A registration leaves an unverified account whose mailed code, entered
      within fifteen minutes, verifies it. */
  lemma RegistrantCanVerify(id: string, username: string, email: string, hash: string, role: string,
                            code: nat, now: Time, t: Time)
    requires t <= now + CodeLifetime
    ensures !Issued(Registrant(id, username, email, hash, role), code, now).isEmailVerified
    ensures Decide(Issued(Registrant(id, username, email, hash, role), code, now), Text.NatToString(code), t) == Accepted
  {
    IssueThenVerify(Registrant(id, username, email, hash, role), code, now, t);
  }

  /** OnPostResendCodeAsync. */
  method ResendCode(db: Database, email: string, code: int, now: Time, mailError: Option<string>)
      returns (reply: Reply)
    requires UniqueUserIds(db.users)
    requires CodeDraw(code)
    modifies db`users
    ensures email == "" ==> reply == Fail(200, "Email required") && db.users == old(db.users)
    ensures email != "" && (FindByEmail(old(db.users), email).None? ||
                            old(db.users)[FindByEmail(old(db.users), email).value].isEmailVerified) ==>
              reply == Fail(200, "User invalid.") && db.users == old(db.users)
    ensures email != "" && FindByEmail(old(db.users), email).Some? ==>
              var k := FindByEmail(old(db.users), email).value;
              !old(db.users)[k].isEmailVerified ==>
                IssuedAt(old(db.users), db.users, k, code, now)
                && reply == (if mailError.None? then CodeSent else Fail(200, "Error: " + mailError.value))
    ensures UniqueUserIds(db.users)
  {
    if email == "" {
      return Fail(200, "Email required");
    }
    var found := FindByEmail(db.users, email);
    if found.None? || db.users[found.value].isEmailVerified {
      return Fail(200, "User invalid.");
    }
    var k := found.value;
    var sent := SetAndSendVerificationCode(db, k, code, now, mailError);
    IssuedUnique(old(db.users), db.users, k, code, now);
    if sent {
      reply := CodeSent;
    } else {
      reply := Fail(200, "Error: " + mailError.value);
    }
  }

  /** The user name of a new Google account: the one given, or else the part
      of the address before the '@'. */
  function GoogleName(email: string, username: string): (r: string)
    ensures username != "" ==> r == username
    ensures username == "" ==> '@' !in r && |r| <= |email| && email == r + email[|r|..]
    ensures username == "" && '@' in email ==> |r| < |email| && email[|r|] == '@'
  {
    if username == "" then Text.Before(email, '@') else username
  }

  /** The account Google sign-in creates: verified, a placeholder hash, the
      Seller role. */
  function GoogleUser(id: string, email: string, username: string): (u: User)
    ensures u.isEmailVerified && u.role == "Seller" && u.passwordHash == GoogleHash && u.email == email
    ensures u.emailVerificationToken.None? && u.emailVerificationTokenExpires.None?
  {
    User(id, GoogleName(email, username), email, GoogleHash, true, None, None, "Seller")
  }

  /** OnPostFirebaseLoginAsync: a known address signs its user in as it is,
      an unknown one gets a new Seller account. */
  method FirebaseLogin(db: Database, email: string, username: string, freshId: string)
      returns (reply: Reply)
    requires UniqueUserIds(db.users)
    requires forall k :: 0 <= k < |db.users| ==> db.users[k].id != freshId
    modifies db`users
    ensures email == "" ==> reply == Fail(200, "Email required.") && db.users == old(db.users)
    ensures email != "" && FindByEmail(old(db.users), email).Some? ==>
              reply == SignedIn(RedirectFor(old(db.users)[FindByEmail(old(db.users), email).value].role))
              && db.users == old(db.users)
    ensures email != "" && FindByEmail(old(db.users), email).None? ==>
              reply == SignedIn("/Dash") && db.users == old(db.users) + [GoogleUser(freshId, email, username)]
    ensures UniqueUserIds(db.users)
  {
    if email == "" {
      return Fail(200, "Email required.");
    }
    var found := FindByEmail(db.users, email);
    var user: User;
    if found.None? {
      user := GoogleUser(freshId, email, username);
      AppendUnique(db.users, user);
      db.users := db.users + [user];
    } else {
      user := db.users[found.value];
    }
    reply := SignedIn(RedirectFor(user.role));
  }

  /** After Google sign-in with an address, that address finds a user, so a
      second sign-in creates nothing. */
  lemma GoogleSignInFindsAfter(users: seq<User>, id: string, email: string, username: string)
    requires FindByEmail(users, email).None?
    ensures FindByEmail(users + [GoogleUser(id, email, username)], email) == Some(|users|)
  {
    var r := users + [GoogleUser(id, email, username)];
    assert r[|users|].email == email;
    assert forall k :: 0 <= k < |users| ==> r[k] == users[k];
  }
}
