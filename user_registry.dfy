/**
 * Account sign-up (backend/app/crud/user.py, rows as in backend/app/models/user.py):
 * an email held by a verified account is refused; an unverified account with the
 * email is replaced by the new one, which gets a six-digit code valid for three
 * minutes, mailed to the address. The random digits, the password hash and the
 * current time are inputs; mails sent are appended to an outbox.
 */
module UserRegistry {
  import opened Wrappers
  import opened Text

  /** A row of `users`. Times are integers (seconds). */
  datatype User = User(
    id: nat,
    firstName: string,
    lastName: Option<string>,
    email: string,
    passwordHash: string,
    verified: bool,
    verificationCode: string,
    codeExpiresAt: int)

  /** A verification mail: recipient, greeting name and code. */
  datatype Mail = Mail(email: string, userName: string, code: string)

  /** `timedelta(minutes=3)`, in seconds. */
  const CodeLifetime: int := 180

  /** `''.join(random.choices(string.digits, k=6))` for the drawn digits. */
  function CodeOf(digits: seq<nat>): (code: string)
    requires forall i :: 0 <= i < |digits| ==> digits[i] < 10
    ensures |code| == |digits|
  {
    if digits == [] then [] else CodeOf(digits[..|digits| - 1]) + [DigitChar(digits[|digits| - 1])]
  }

  /** The value of a decimal digit character. */
  function DigitValue(c: char): nat
    requires '0' <= c <= '9'
  {
    c as int - '0' as int
  }

  /** The form `^\d{6}$` asks of a code, for ASCII digits. */
  predicate IsSixDigitCode(s: string) {
    |s| == 6 && forall i :: 0 <= i < |s| ==> '0' <= s[i] <= '9'
  }

  /** A code is made of decimal digits, and reading them back gives the drawn digits. */
  lemma {:induction false} CodeOfDigits(digits: seq<nat>)
    requires forall i :: 0 <= i < |digits| ==> digits[i] < 10
    ensures forall i :: 0 <= i < |digits| ==> '0' <= CodeOf(digits)[i] <= '9' && DigitValue(CodeOf(digits)[i]) == digits[i]
  {
    if digits != [] {
      var init := digits[..|digits| - 1];
      CodeOfDigits(init);
      assert forall i :: 0 <= i < |init| ==> CodeOf(digits)[i] == CodeOf(init)[i];
    }
  }

  /** Six drawn digits give a code the verification form accepts; different draws give different codes. */
  lemma CodeIsSixDigits(digits: seq<nat>, other: seq<nat>)
    requires |digits| == 6 && forall i :: 0 <= i < 6 ==> digits[i] < 10
    requires |other| == 6 && forall i :: 0 <= i < 6 ==> other[i] < 10
    ensures IsSixDigitCode(CodeOf(digits))
    ensures CodeOf(digits) == CodeOf(other) <==> digits == other
  {
    CodeOfDigits(digits);
    CodeOfDigits(other);
    if CodeOf(digits) == CodeOf(other) {
      assert forall i :: 0 <= i < 6 ==> digits[i] == DigitValue(CodeOf(digits)[i]) == other[i];
    }
  }

  /** `f"{first} {last}" if last else first`: an absent or empty last name is left out. */
  function DisplayName(firstName: string, lastName: Option<string>): (name: string)
    ensures StartsWith(name, firstName)
    ensures lastName.None? || lastName.value == [] ==> name == firstName
    ensures lastName.Some? && lastName.value != [] ==>
      |name| == |firstName| + 1 + |lastName.value| && name[|firstName|] == ' ' && EndsWith(name, lastName.value)
  {
    if lastName.Some? && lastName.value != [] then
      var name := firstName + " " + lastName.value;
      assert name[..|firstName|] == firstName;
      assert name[|name| - |lastName.value|..] == lastName.value;
      name
    else firstName
  }

  /** The index of the first user with `email` (the query's `first()`). */
  function FirstWithEmail(users: seq<User>, email: string): (r: Option<nat>)
    ensures r.Some? ==> r.value < |users| && users[r.value].email == email
    ensures r.Some? ==> forall j :: 0 <= j < r.value ==> users[j].email != email
    ensures r.None? ==> forall j :: 0 <= j < |users| ==> users[j].email != email
  {
    if users == [] then None
    else
      var r := FirstWithEmail(users[..|users| - 1], email);
      if r.Some? then r
      else if users[|users| - 1].email == email then Some(|users| - 1)
      else None
  }

  /** Accounts have distinct ids and, as sign-up keeps it, distinct emails. */
  predicate Distinct(users: seq<User>) {
    forall i, j :: 0 <= i < j < |users| ==> users[i].id != users[j].id && users[i].email != users[j].email
  }

  /** What sign-up answers. */
  datatype SignUpReply = SignUpReply(status: int, success: bool, message: string)

  /** The reply, the accounts left and the mail sent, if any. */
  datatype SignUp = SignUp(reply: SignUpReply, users: seq<User>, mail: Option<Mail>)

  /**
   * `register_user` on the accounts, with `code` the drawn code and `id` the id the
   * database gives the new row.
   */
  function SignedUp(users: seq<User>, firstName: string, lastName: Option<string>, email: string,
                    passwordHash: string, code: string, id: nat, now: int): SignUp
  {
    var k := FirstWithEmail(users, email);
    if k.Some? && users[k.value].verified then
      SignUp(SignUpReply(400, false, "User already exists"), users, None)
    else
      var kept := WithoutEmail(users, email);
      var user := User(id, firstName, lastName, email, passwordHash, false, code, now + CodeLifetime);
      SignUp(SignUpReply(201, true, "User created successfully"), kept + [user],
             Some(Mail(email, DisplayName(firstName, lastName), code)))
  }

  /** The accounts without the first one with `email`, if there is one. */
  function WithoutEmail(users: seq<User>, email: string): seq<User> {
    var k := FirstWithEmail(users, email);
    if k.Some? then users[..k.value] + users[k.value + 1..] else users
  }

  /** In distinct accounts, removing the first one with `email` leaves none with it. */
  lemma WithoutEmailDistinct(users: seq<User>, email: string)
    requires Distinct(users)
    ensures var kept := WithoutEmail(users, email);
      Distinct(kept) && forall u :: u in kept ==> u in users && u.email != email
  {
    var k := FirstWithEmail(users, email);
    var kept := WithoutEmail(users, email);
    if k.Some? {
      assert forall j :: 0 <= j < |kept| ==> kept[j] == users[if j < k.value then j else j + 1];
    }
  }

  /** Removing the first account with `email` keeps every account with another email. */
  lemma WithoutEmailKeepsOthers(users: seq<User>, email: string, u: User)
    requires u.email != email
    ensures u in WithoutEmail(users, email) <==> u in users
  {
    var k := FirstWithEmail(users, email);
    if k.Some? {
      assert users == users[..k.value] + [users[k.value]] + users[k.value + 1..];
    }
  }

  /** An account with a new id and an email no other account has may be appended. */
  lemma AppendNewUser(kept: seq<User>, user: User)
    requires Distinct(kept)
    requires forall u :: u in kept ==> u.id < user.id && u.email != user.email
    ensures Distinct(kept + [user])
  {
    var r := kept + [user];
    forall i, j | 0 <= i < j < |r|
      ensures r[i].id != r[j].id && r[i].email != r[j].email
    {
      assert r[i] == kept[i];
      if j < |kept| {
        assert r[j] == kept[j];
      }
    }
  }

  /**
   * Sign-up keeps ids and emails distinct; a new account is the only one with its
   * email, unverified, with the code expiring three minutes after `now`, and the code
   * is mailed to it.
   */
  lemma SignedUpDistinct(users: seq<User>, firstName: string, lastName: Option<string>, email: string,
                         passwordHash: string, code: string, id: nat, now: int)
    requires Distinct(users) && forall u :: u in users ==> u.id < id
    ensures var s := SignedUp(users, firstName, lastName, email, passwordHash, code, id, now);
      Distinct(s.users) && forall u :: u in s.users ==> u.id <= id
    ensures var s := SignedUp(users, firstName, lastName, email, passwordHash, code, id, now);
      s.reply.status == 201 ==>
        && s.users[|s.users| - 1] == User(id, firstName, lastName, email, passwordHash, false, code, now + CodeLifetime)
        && (forall j :: 0 <= j < |s.users| - 1 ==> s.users[j].email != email)
        && s.mail == Some(Mail(email, DisplayName(firstName, lastName), code))
  {
    var k := FirstWithEmail(users, email);
    if !(k.Some? && users[k.value].verified) {
      var kept := WithoutEmail(users, email);
      WithoutEmailDistinct(users, email);
      var user := User(id, firstName, lastName, email, passwordHash, false, code, now + CodeLifetime);
      AppendNewUser(kept, user);
      var r := kept + [user];
      assert forall j :: 0 <= j < |r| - 1 ==> r[j] == kept[j] && r[j] in kept;
    }
  }

  /** Sign-up never touches an account with another email. */
  lemma SignedUpKeepsOthers(users: seq<User>, firstName: string, lastName: Option<string>, email: string,
                            passwordHash: string, code: string, id: nat, now: int, u: User)
    requires u.email != email
    ensures u in SignedUp(users, firstName, lastName, email, passwordHash, code, id, now).users <==> u in users
  {
    WithoutEmailKeepsOthers(users, email, u);
  }

  /** A verified account's email is refused, and nothing changes. */
  lemma SignedUpRefusesVerified(users: seq<User>, firstName: string, lastName: Option<string>, email: string,
                                passwordHash: string, code: string, id: nat, now: int, i: nat)
    requires Distinct(users) && i < |users| && users[i].email == email && users[i].verified
    ensures SignedUp(users, firstName, lastName, email, passwordHash, code, id, now)
      == SignUp(SignUpReply(400, false, "User already exists"), users, None)
  {
  }

  class UserTable {
    var users: seq<User>
    var nextId: nat
    var outbox: seq<Mail>

    ghost predicate Valid()
      reads this
    {
      Distinct(users) && forall u :: u in users ==> u.id < nextId
    }

    constructor ()
      ensures Valid() && users == [] && nextId == 1 && outbox == []
    {
      users := [];
      nextId := 1;
      outbox := [];
    }

    /**
     * `register_user`: the reply, the accounts and the mail are those of `SignedUp`
     * for the code of the drawn digits; a new account takes the next id.
     */
    method RegisterUser(firstName: string, lastName: Option<string>, email: string, passwordHash: string,
                        digits: seq<nat>, now: int) returns (reply: SignUpReply)
      requires Valid()
      requires |digits| == 6 && forall i :: 0 <= i < 6 ==> digits[i] < 10
      modifies this
      ensures Valid()
      ensures var s := SignedUp(old(users), firstName, lastName, email, passwordHash, CodeOf(digits), old(nextId), now);
        && reply == s.reply && users == s.users
        && outbox == old(outbox) + (if s.mail.Some? then [s.mail.value] else [])
      ensures nextId == if reply.status == 201 then old(nextId) + 1 else old(nextId)
    {
      SignedUpDistinct(users, firstName, lastName, email, passwordHash, CodeOf(digits), nextId, now);
      var k := FirstWithEmail(users, email);
      if k.Some? {
        if users[k.value].verified {
          return SignUpReply(400, false, "User already exists");
        }
        users := WithoutEmail(users, email);
      }
      var code := CodeOf(digits);
      users := users + [User(nextId, firstName, lastName, email, passwordHash, false, code, now + CodeLifetime)];
      nextId := nextId + 1;
      outbox := outbox + [Mail(email, DisplayName(firstName, lastName), code)];
      reply := SignUpReply(201, true, "User created successfully");
    }
  }
}
