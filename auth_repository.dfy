/** Registration, login and the one-time email verification code.
    Password hashing, password checking and token signing are opaque
    collaborators and come in as function parameters; the random digits of
    a code come in as the indices the random source drew. */
module AuthRepository {
  import opened Schemas
  import opened Store

  /** Some user has this email address. */
  predicate EmailRegistered(users: map<Uuid, UserRow>, email: string) {
    exists id :: id in users && users[id].email == email
  }

  /** Adds a user, unverified, after checking that the email is free and
      that the password was typed the same twice. `newId` is the fresh id
      the database assigns. */
  method Register(db: Database, name: string, email: string, password: string, confirmPassword: string,
                  hashPassword: string -> string, newId: Uuid)
    returns (r: Result<string>)
    requires db.Valid() && newId !in db.users
    modifies db`users
    ensures db.Valid()
    ensures EmailRegistered(old(db.users), email) ==> r == Err(EmailTaken)
    ensures !EmailRegistered(old(db.users), email) && password != confirmPassword ==> r == Err(PasswordMismatch)
    ensures r.Err? ==> db.users == old(db.users)
    ensures r.Ok? <==> !EmailRegistered(old(db.users), email) && password == confirmPassword
    ensures r.Ok? ==> r.value == "Registration successful"
    ensures r.Ok? ==> db.users == old(db.users)[newId := UserRow(name, email, hashPassword(password), false)]
    ensures r.Ok? ==> |db.users| == |old(db.users)| + 1 && EmailRegistered(db.users, email)
  {
    if EmailRegistered(db.users, email) {
      return Err(EmailTaken);
    }
    if password != confirmPassword {
      return Err(PasswordMismatch);
    }
    db.users := db.users[newId := UserRow(name, email, hashPassword(password), false)];
    assert db.users[newId].email == email;
    return Ok("Registration successful");
  }

  /** A second registration with an address that was just registered is
      refused, whatever its passwords. */
  method RegisterTwice(db: Database, name: string, email: string, password: string,
                       hashPassword: string -> string, firstId: Uuid, secondId: Uuid,
                       otherName: string, otherPassword: string, otherConfirm: string)
    returns (first: Result<string>, second: Result<string>)
    requires db.Valid() && firstId !in db.users && secondId !in db.users && firstId != secondId
    requires !EmailRegistered(db.users, email)
    modifies db`users
    ensures first.Ok? && second == Err(EmailTaken)
    ensures db.users == old(db.users)[firstId := UserRow(name, email, hashPassword(password), false)]
  {
    first := Register(db, name, email, password, password, hashPassword, firstId);
    second := Register(db, otherName, email, otherPassword, otherConfirm, hashPassword, secondId);
  }

  /** Checks a user's credentials and issues a token; `verifyPassword`
      compares a plain password with a stored hash and `createToken` signs
      a token for a user id. Verification status is reported, not required. */
  method Login(db: Database, email: string, password: string,
               verifyPassword: (string, string) -> bool, createToken: Uuid -> string)
    returns (r: Result<LoginResponse>)
    requires db.Valid()
    ensures !EmailRegistered(db.users, email) ==> r == Err(UserNotFound)
    ensures forall id :: id in db.users && db.users[id].email == email ==>
      r == if verifyPassword(password, db.users[id].passwordHash)
           then Ok(LoginResponse(createToken(id), db.users[id].isVerified))
           else Err(IncorrectPassword)
  {
    if !EmailRegistered(db.users, email) {
      return Err(UserNotFound);
    }
    var id :| id in db.users && db.users[id].email == email;
    var user := db.users[id];
    if !verifyPassword(password, user.passwordHash) {
      return Err(IncorrectPassword);
    }
    var token := createToken(id);
    return Ok(LoginResponse(token, user.isVerified));
  }

  /** `string.digits`, the population codes are drawn from. */
  const Digits := "0123456789"

  /** How many digits a verification code has. */
  const CodeLength := 6

  /** A well-formed verification code: six decimal digits. */
  predicate IsCode(s: string) {
    |s| == CodeLength && forall i :: 0 <= i < |s| ==> '0' <= s[i] <= '9'
  }

  /** The code built from six random draws from `Digits`; `picks` are the
      positions drawn. Each character is the digit whose value was drawn, so
      leading zeros are kept. */
  function GenerateCode(picks: seq<nat>): (code: string)
    requires |picks| == CodeLength && forall i :: 0 <= i < |picks| ==> picks[i] < |Digits|
    ensures IsCode(code)
    ensures forall i :: 0 <= i < |code| ==> code[i] as int - '0' as int == picks[i]
  {
    seq(CodeLength, i requires 0 <= i < CodeLength => Digits[picks[i]])
  }

  /** A code is pending for the user: the cache holds a non-empty value
      under their key (an empty value reads as no code). */
  predicate HasPendingCode(entries: map<string, string>, id: Uuid) {
    VerifyKey(id) in entries && entries[VerifyKey(id)] != ""
  }

  /** Issues a new code to an unverified user, replacing any code they
      already had, and returns it in the response. */
  method SendVerificationCode(cache: CodeCache, user: Profile, picks: seq<nat>)
    returns (r: Result<VerificationResponse>)
    requires |picks| == CodeLength && forall i :: 0 <= i < |picks| ==> picks[i] < |Digits|
    modifies cache
    ensures user.isVerified ==> r == Err(AlreadyVerified) && cache.entries == old(cache.entries)
    ensures r.Ok? <==> !user.isVerified
    ensures r.Ok? ==> r.value == VerificationResponse("Verification code sent successfully", GenerateCode(picks))
    ensures r.Ok? ==> IsCode(r.value.code) && HasPendingCode(cache.entries, user.id)
    ensures r.Ok? ==> cache.entries == old(cache.entries)[VerifyKey(user.id) := r.value.code]
    ensures r.Ok? ==> forall id :: id != user.id ==>
      && (VerifyKey(id) in cache.entries <==> VerifyKey(id) in old(cache.entries))
      && (VerifyKey(id) in cache.entries ==> cache.entries[VerifyKey(id)] == old(cache.entries)[VerifyKey(id)])
  {
    if user.isVerified {
      return Err(AlreadyVerified);
    }
    var code := GenerateCode(picks);
    var key := VerifyKey(user.id);
    cache.entries := cache.entries[key := code];
    forall id | id != user.id ensures VerifyKey(id) != key {
      VerifyKeyInjective(id, user.id);
    }
    return Ok(VerificationResponse("Verification code sent successfully", code));
  }

  /** Checks `code` against the user's pending code; on an exact match marks
      the user verified (if their row still exists) and consumes the code. */
  method VerifyCode(db: Database, cache: CodeCache, code: string, user: Profile)
    returns (r: Result<string>)
    requires db.Valid()
    modifies db`users, cache
    ensures db.Valid()
    ensures user.isVerified ==> r == Err(AlreadyVerified)
    ensures !user.isVerified && !HasPendingCode(old(cache.entries), user.id) ==> r == Err(CodeMissing)
    ensures (!user.isVerified && HasPendingCode(old(cache.entries), user.id) &&
             old(cache.entries)[VerifyKey(user.id)] != code) ==> r == Err(CodeInvalid)
    ensures r.Err? ==> db.users == old(db.users) && cache.entries == old(cache.entries)
    ensures r.Ok? <==> !user.isVerified && HasPendingCode(old(cache.entries), user.id)
                       && old(cache.entries)[VerifyKey(user.id)] == code
    ensures r.Ok? ==> r.value == "User verified successfully"
    ensures r.Ok? ==> cache.entries == old(cache.entries) - {VerifyKey(user.id)}
    ensures r.Ok? && user.id in old(db.users) ==>
      db.users == old(db.users)[user.id := old(db.users)[user.id].(isVerified := true)]
    ensures r.Ok? && user.id !in old(db.users) ==> db.users == old(db.users)
  {
    if user.isVerified {
      return Err(AlreadyVerified);
    }
    var key := VerifyKey(user.id);
    if key !in cache.entries || cache.entries[key] == "" {
      return Err(CodeMissing);
    }
    var stored := cache.entries[key];
    if stored != code {
      return Err(CodeInvalid);
    }
    if user.id in db.users {
      db.users := db.users[user.id := db.users[user.id].(isVerified := true)];
    }
    cache.entries := cache.entries - {key};
    return Ok("User verified successfully");
  }

  /** The code lifecycle: a code just sent verifies the user once; sending
      the same code again fails, with "already verified" once the acting
      user is looked up afresh and with "expired or not found" for a
      request that still holds the old profile. */
  method SendThenVerifyTwice(db: Database, cache: CodeCache, user: Profile, picks: seq<nat>)
    returns (sent: Result<VerificationResponse>, first: Result<string>,
             againFresh: Result<string>, againStale: Result<string>)
    requires db.Valid() && user.id in db.users && !user.isVerified
    requires |picks| == CodeLength && forall i :: 0 <= i < |picks| ==> picks[i] < |Digits|
    modifies db`users, cache
    ensures sent.Ok? && first.Ok?
    ensures user.id in db.users && db.users[user.id].isVerified
    ensures againFresh == Err(AlreadyVerified)
    ensures againStale == Err(CodeMissing)
    ensures !HasPendingCode(cache.entries, user.id)
  {
    sent := SendVerificationCode(cache, user, picks);
    first := VerifyCode(db, cache, sent.value.code, user);
    againFresh := VerifyCode(db, cache, sent.value.code, ProfileOf(db.users, user.id));
    againStale := VerifyCode(db, cache, sent.value.code, user);
  }

  /** Once the code's time to live has run out, verification fails with
      "expired or not found" and the user stays unverified. */
  method VerifyAfterExpiry(db: Database, cache: CodeCache, code: string, user: Profile)
    returns (r: Result<string>)
    requires db.Valid() && !user.isVerified
    modifies db`users, cache
    ensures r == Err(CodeMissing) && db.users == old(db.users)
  {
    cache.Expire(VerifyKey(user.id));
    r := VerifyCode(db, cache, code, user);
  }
}
