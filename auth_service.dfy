// Local accounts (services/authService.ts): the user records live in one
// key-value store entry (`hangul_garden_users`, a JSON object keyed by email)
// and the signed-in email in another (`hangul_garden_currentUserEmail`).
// `AuthStore` is that store; each operation is specified by a function from
// the old store to the new one and its reply, and the lemmas relate the
// operations to each other. `Date.now()` (the first folder's id) is a
// parameter.
module AuthService {
  import opened Wrappers
  import opened Types
  import ProgressMap = Progress

  /** The users entry as read back: missing (or empty), not parseable, or a parsed record. */
  datatype StoredUsers = Absent | Unparsable | Parsed(users: map<string, User>)

  /** `getUsers`: the parsed record, `{}` for a missing entry or one that cannot be parsed. */
  function GetUsers(s: StoredUsers): (r: map<string, User>)
    ensures s.Parsed? ==> r == s.users
    ensures !s.Parsed? ==> r == map[]
  {
    if s.Parsed? then s.users else map[]
  }

  /** Everything the service keeps: the users entry and the signed-in email. */
  datatype Store = Store(users: StoredUsers, current: Option<string>)

  /** The sign-up form: a user without folders and progress. */
  datatype SignupDetails = SignupDetails(
    email: string,
    password: Option<string>,
    fullName: string,
    nickname: string,
    profileImage: Option<string>)

  datatype AuthError = UserAlreadyExists | InvalidPassword | UserNotFound

  /** The new state of the store and the reply of one operation. */
  datatype Outcome<T> = Outcome(store: Store, result: Result<T, AuthError>)

  const DefaultFolderName: string := "기본 화단"

  /** The account a sign-up creates: one empty `기본 화단` folder and the fourteen-consonant progress map, only ㄱ unlocked. */
  function NewUser(details: SignupDetails, folderId: string): (u: User)
    ensures u.email == details.email && u.password == details.password
    ensures u.fullName == details.fullName && u.nickname == details.nickname && u.profileImage == details.profileImage
    ensures u.folders == [VocabFolder(folderId, DefaultFolderName, [])]
    ensures u.hangulProgress.Some? && |u.hangulProgress.value| == 14
    ensures u.hangulProgress.value.Keys == set k | k in ProgressMap.BasicConsonants
    ensures "ㄱ" in u.hangulProgress.value && u.hangulProgress.value["ㄱ"] == Unlocked
    ensures forall k :: k in u.hangulProgress.value && k != "ㄱ" ==> u.hangulProgress.value[k] == Locked
  {
    ProgressMap.DefaultProgressShape();
    User(details.email, details.password, details.fullName, details.nickname, details.profileImage,
         [VocabFolder(folderId, DefaultFolderName, [])], Some(ProgressMap.DefaultProgress))
  }

  /**
   * `signup`: an email already present is refused and nothing is written;
   * otherwise the new account is stored under its email (over whatever
   * `getUsers` read, so an unparseable entry is replaced) and becomes the
   * signed-in one.
   */
  function SignupOn(st: Store, details: SignupDetails, folderId: string): (o: Outcome<User>)
    ensures o.result.Failure? <==> details.email in GetUsers(st.users)
    ensures o.result.Failure? ==> o.store == st && o.result.error == UserAlreadyExists
    ensures o.result.Success? ==> o.result.value == NewUser(details, folderId)
    ensures o.result.Success? ==> o.store.current == Some(details.email)
    ensures o.result.Success? ==> o.store.users.Parsed?
    ensures o.result.Success? ==> GetUsers(o.store.users).Keys == GetUsers(st.users).Keys + {details.email}
    ensures o.result.Success? ==> GetUsers(o.store.users)[details.email] == NewUser(details, folderId)
    ensures forall e :: e in GetUsers(st.users) ==> e in GetUsers(o.store.users) && GetUsers(o.store.users)[e] == GetUsers(st.users)[e]
  {
    var users := GetUsers(st.users);
    if details.email in users then Outcome(st, Failure(UserAlreadyExists))
    else
      var u := NewUser(details, folderId);
      Outcome(Store(Parsed(users[details.email := u]), Some(details.email)), Success(u))
  }

  /** A password counts only when it is given and non-empty (`if (password)`). */
  predicate Truthy(password: Option<string>) {
    password.Some? && password.value != ""
  }

  /**
   * `login`: an unknown email is refused; a given password must equal the
   * stored one; with no password (the social sign-in) any known email is
   * accepted. Only a success writes, and it writes only the signed-in email.
   */
  function LoginOn(st: Store, email: string, password: Option<string>): (o: Outcome<User>)
    ensures email !in GetUsers(st.users) ==> o.result == Failure(UserNotFound)
    ensures email in GetUsers(st.users) && Truthy(password) ==>
      (o.result.Success? <==> GetUsers(st.users)[email].password == password)
    ensures email in GetUsers(st.users) && !Truthy(password) ==> o.result.Success?
    ensures o.result.Failure? ==> o.store == st
    ensures o.result.Failure? && email in GetUsers(st.users) ==> o.result.error == InvalidPassword
    ensures o.result.Success? ==> email in GetUsers(st.users) && o.result.value == GetUsers(st.users)[email]
    ensures o.result.Success? ==> o.store == st.(current := Some(email))
  {
    var users := GetUsers(st.users);
    if email !in users then Outcome(st, Failure(UserNotFound))
    else if Truthy(password) && users[email].password != password then Outcome(st, Failure(InvalidPassword))
    else Outcome(st.(current := Some(email)), Success(users[email]))
  }

  /** `logout`: the signed-in email is removed and the users are left alone. */
  function LogoutOn(st: Store): (s: Store)
    ensures s.current.None? && s.users == st.users
  {
    st.(current := None)
  }

  /** `getCurrentUser`: the record under a non-empty signed-in email, or null. */
  function CurrentUserOf(st: Store): (r: Option<User>)
    ensures r.Some? <==> st.current.Some? && st.current.value != "" && st.current.value in GetUsers(st.users)
    ensures r.Some? ==> r.value == GetUsers(st.users)[st.current.value]
  {
    if st.current.Some? && st.current.value != "" && st.current.value in GetUsers(st.users)
    then Some(GetUsers(st.users)[st.current.value])
    else None
  }

  /** `updateUser`: only a record that exists is replaced, under its email; an unknown email is refused with no write. */
  function UpdateOn(st: Store, user: User): (o: Outcome<()>)
    ensures o.result.Success? <==> user.email in GetUsers(st.users)
    ensures o.result.Failure? ==> o.store == st && o.result.error == UserNotFound
    ensures o.result.Success? ==> o.store.current == st.current && o.store.users.Parsed?
    ensures o.result.Success? ==> GetUsers(o.store.users).Keys == GetUsers(st.users).Keys
    ensures o.result.Success? ==> GetUsers(o.store.users)[user.email] == user
    ensures forall e :: e in GetUsers(st.users) && e != user.email ==> GetUsers(o.store.users)[e] == GetUsers(st.users)[e]
  {
    var users := GetUsers(st.users);
    if user.email in users then Outcome(Store(Parsed(users[user.email := user]), st.current), Success(()))
    else Outcome(st, Failure(UserNotFound))
  }

  /** Every record is stored under its own email. */
  predicate KeyedByEmail(st: Store) {
    forall e :: e in GetUsers(st.users) ==> GetUsers(st.users)[e].email == e
  }

  /** Sign-up, log-in, log-out and update all keep the records keyed by their emails. */
  lemma OperationsKeepKeys(st: Store, details: SignupDetails, folderId: string, email: string,
                           password: Option<string>, user: User)
    requires KeyedByEmail(st)
    ensures KeyedByEmail(SignupOn(st, details, folderId).store)
    ensures KeyedByEmail(LoginOn(st, email, password).store)
    ensures KeyedByEmail(LogoutOn(st))
    ensures KeyedByEmail(UpdateOn(st, user).store)
  {
    var s := SignupOn(st, details, folderId).store;
    forall e | e in GetUsers(s.users) ensures GetUsers(s.users)[e].email == e {
      if e != details.email {
        assert e in GetUsers(st.users);
      }
    }
    var t := UpdateOn(st, user).store;
    forall e | e in GetUsers(t.users) ensures GetUsers(t.users)[e].email == e {
      if e != user.email {
        assert e in GetUsers(st.users);
      }
    }
  }

  /** A new account is the signed-in user right after sign-up (a non-empty email is needed: `getCurrentUser` ignores ""). */
  lemma SignupThenCurrentUser(st: Store, details: SignupDetails, folderId: string)
    requires details.email !in GetUsers(st.users) && details.email != ""
    ensures CurrentUserOf(SignupOn(st, details, folderId).store) == Some(NewUser(details, folderId))
  {
  }

  /** After sign-up the same email and password log in and return the new account; so does the social log-in. */
  lemma SignupThenLogin(st: Store, details: SignupDetails, folderId: string, other: Option<string>)
    requires details.email !in GetUsers(st.users)
    requires !Truthy(other)
    ensures var s := SignupOn(st, details, folderId).store;
      LoginOn(s, details.email, details.password).result == Success(NewUser(details, folderId)) &&
      LoginOn(s, details.email, other).result == Success(NewUser(details, folderId))
  {
  }

  /** Signing up twice with one email: the second attempt is refused and changes nothing. */
  lemma SignupTwice(st: Store, first: SignupDetails, second: SignupDetails, id1: string, id2: string)
    requires first.email !in GetUsers(st.users) && second.email == first.email
    ensures var s := SignupOn(st, first, id1).store;
      SignupOn(s, second, id2) == Outcome(s, Failure(UserAlreadyExists))
  {
  }

  /** Once logged out nobody is signed in, whatever the users are. */
  lemma LogoutThenCurrentUser(st: Store)
    ensures CurrentUserOf(LogoutOn(st)) == None
  {
  }

  /** Updating the signed-in user's record is seen by the next `getCurrentUser`. */
  lemma UpdateThenCurrentUser(st: Store, user: User)
    requires st.current == Some(user.email) && user.email != "" && user.email in GetUsers(st.users)
    ensures CurrentUserOf(UpdateOn(st, user).store) == Some(user)
  {
  }

  /** A sign-up over an entry that cannot be parsed keeps only the new account. */
  lemma SignupOverUnparsable(st: Store, details: SignupDetails, folderId: string)
    requires st.users.Unparsable?
    ensures GetUsers(SignupOn(st, details, folderId).store.users) == map[details.email := NewUser(details, folderId)]
  {
  }

  /** The two store entries the service reads and writes. */
  class AuthStore {
    var stored: StoredUsers
    var currentEmail: Option<string>

    function State(): Store
      reads this
    {
      Store(stored, currentEmail)
    }

    constructor (stored: StoredUsers, currentEmail: Option<string>)
      ensures State() == Store(stored, currentEmail)
    {
      this.stored := stored;
      this.currentEmail := currentEmail;
    }

    method Signup(details: SignupDetails, folderId: string) returns (r: Result<User, AuthError>)
      modifies this
      ensures State() == SignupOn(old(State()), details, folderId).store
      ensures r == SignupOn(old(State()), details, folderId).result
    {
      var users := GetUsers(stored);
      if details.email in users {
        return Failure(UserAlreadyExists);
      }
      var newUser := NewUser(details, folderId);
      users := users[details.email := newUser];
      stored := Parsed(users);
      currentEmail := Some(details.email);
      r := Success(newUser);
    }

    method Login(email: string, password: Option<string>) returns (r: Result<User, AuthError>)
      modifies this`currentEmail
      ensures State() == LoginOn(old(State()), email, password).store
      ensures r == LoginOn(old(State()), email, password).result
    {
      var users := GetUsers(stored);
      if email !in users {
        return Failure(UserNotFound);
      }
      var user := users[email];
      if password.Some? && password.value != "" {
        if user.password == password {
          currentEmail := Some(email);
          r := Success(user);
        } else {
          r := Failure(InvalidPassword);
        }
      } else {
        currentEmail := Some(email);
        r := Success(user);
      }
    }

    method Logout()
      modifies this`currentEmail
      ensures State() == LogoutOn(old(State()))
    {
      currentEmail := None;
    }

    /** Reads only. */
    method GetCurrentUser() returns (r: Option<User>)
      ensures r == CurrentUserOf(State())
      ensures KeyedByEmail(State()) && r.Some? ==> currentEmail == Some(r.value.email)
    {
      r := None;
      if currentEmail.Some? && currentEmail.value != "" {
        var users := GetUsers(stored);
        if currentEmail.value in users {
          r := Some(users[currentEmail.value]);
        }
      }
    }

    method UpdateUser(user: User) returns (r: Result<(), AuthError>)
      modifies this`stored
      ensures State() == UpdateOn(old(State()), user).store
      ensures r == UpdateOn(old(State()), user).result
    {
      var users := GetUsers(stored);
      if user.email in users {
        users := users[user.email := user];
        stored := Parsed(users);
        r := Success(());
      } else {
        r := Failure(UserNotFound);
      }
    }
  }
}
