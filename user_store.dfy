/** The account store (src/modules/user/user.service.ts): rows keyed by their
    unique email, and the read-modify-write updates on them. */
module UserStore {
  import opened Wrappers
  import opened Responses
  import opened Hashing
  import opened AuthDtos
  import opened UserEntity

  /** The table, and the next primary key the database will hand out. */
  datatype Store = Store(accounts: map<string, Account>, nextUuid: Uuid)

  /** What an operation returns, and the table after it. */
  datatype Step<T> = Step(result: Result<T, Error>, after: Store)

  /** Every row sits under its own email, which fits its column; keys are
      assigned from 1 upwards and no two rows share one. */
  ghost predicate StoreInvariant(s: Store)
  {
    && 1 <= s.nextUuid
    && (forall e :: e in s.accounts ==>
          && s.accounts[e].email == e
          && |e| <= MaxColumnLength
          && 1 <= s.accounts[e].uuid < s.nextUuid)
    && (forall e1, e2 :: e1 in s.accounts && e2 in s.accounts && e1 != e2 ==>
          s.accounts[e1].uuid != s.accounts[e2].uuid)
  }

  /** `createAdmin` on values. */
  function Create(s: Store, email: string): Step<Account>
  {
    if email in s.accounts then Step(Err(HttpException(UserAlreadyExists, BadRequest)), s)
    else if |email| > MaxColumnLength then Step(Err(QueryFailed), s)
    else
      var a := NewAccount(s.nextUuid, email);
      Step(Ok(a), Store(s.accounts[email := a], s.nextUuid + 1))
  }

  /** `confirmForgotPassword` on values: the result is the row as it was read
      before its password column was overwritten. */
  function ResetPassword(h: Hasher, s: Store, email: string, password: string, salt: nat): Step<Account>
  {
    if email !in s.accounts then Step(Err(HttpException(UserDoesNotExist, NotFound)), s)
    else
      var a := s.accounts[email];
      Step(Ok(a), s.(accounts := s.accounts[email := a.(password := Some(h.make(password, salt)))]))
  }

  /** `createAdmin` fails on a taken email and leaves the table alone;
      otherwise it adds exactly one row, with that email, a key no other row
      has and every other column at its default, and keeps the invariant. */
  lemma CreateOutcome(s: Store, email: string)
    requires StoreInvariant(s)
    ensures var o := Create(s, email);
      && StoreInvariant(o.after)
      && (email in s.accounts <==> o.result == Err(HttpException(UserAlreadyExists, BadRequest)))
      && (o.result.Err? ==> o.after == s)
      && (o.result.Ok? <==> email !in s.accounts && |email| <= MaxColumnLength)
      && (o.result.Ok? ==>
            && o.result.value == NewAccount(s.nextUuid, email)
            && o.after.accounts == s.accounts[email := o.result.value]
            && o.after.accounts.Keys == s.accounts.Keys + {email}
            && |o.after.accounts| == |s.accounts| + 1
            && forall e :: e in s.accounts ==> s.accounts[e].uuid != o.result.value.uuid)
  {
    CreateKeepsStoreInvariant(s, email);
    var o := Create(s, email);
    if o.result.Ok? {
      assert |o.after.accounts.Keys| == |s.accounts.Keys| + 1;
    }
  }

  /** The invariant half of `createAdmin`: the new row sits under its email
      and takes the next key, above every key in use. */
  lemma CreateKeepsStoreInvariant(s: Store, email: string)
    requires StoreInvariant(s)
    ensures StoreInvariant(Create(s, email).after)
  {
    if email !in s.accounts && |email| <= MaxColumnLength {
      var a := NewAccount(s.nextUuid, email);
      assert a.email == email && a.uuid == s.nextUuid;
      var m := s.accounts[email := a];
      forall e | e in m
        ensures m[e].email == e && |e| <= MaxColumnLength && 1 <= m[e].uuid < s.nextUuid + 1
      {
        if e != email {
          assert m[e] == s.accounts[e];
        }
      }
      assert StoreInvariant(Store(m, s.nextUuid + 1));
    }
  }

  /** `confirmForgotPassword` fails on an unknown email and leaves the table
      alone; otherwise only that row's password changes, to a fresh hash of the
      new password, and the row returned is the one read before. */
  lemma ResetPasswordOutcome(h: Hasher, s: Store, email: string, password: string, salt: nat)
    requires StoreInvariant(s)
    ensures var o := ResetPassword(h, s, email, password, salt);
      && StoreInvariant(o.after)
      && (email !in s.accounts <==> o.result == Err(HttpException(UserDoesNotExist, NotFound)))
      && (o.result.Ok? <==> email in s.accounts)
      && (o.result.Err? ==> o.after == s)
      && (o.result.Ok? ==>
            && o.result.value == s.accounts[email]
            && o.after.nextUuid == s.nextUuid
            && o.after.accounts.Keys == s.accounts.Keys
            && o.after.accounts[email] == s.accounts[email].(password := Some(h.make(password, salt)))
            && forall e :: e in s.accounts && e != email ==> o.after.accounts[e] == s.accounts[e])
  {
    if email in s.accounts {
      SavePreservesInvariant(s, s.accounts[email].(password := Some(h.make(password, salt))));
    }
  }

  /** Saving a changed entity back under the same key keeps the invariant. */
  lemma SavePreservesInvariant(s: Store, a: Account)
    requires StoreInvariant(s)
    requires a.email in s.accounts && s.accounts[a.email].uuid == a.uuid
    ensures StoreInvariant(s.(accounts := s.accounts[a.email := a]))
  {
  }

  /** The table after `userRepository.save` writes a row back under its email. */
  function SaveRow(s: Store, a: Account): Store
  {
    s.(accounts := s.accounts[a.email := a])
  }

  /** `updateEmailStatus` is idempotent: run again on the entity the first
      call saved, it leaves the table as the first call left it, and the
      email is confirmed. */
  lemma EmailStatusIdempotent(s: Store, a: Account)
    requires StoreInvariant(s) && a.email in s.accounts && s.accounts[a.email].uuid == a.uuid
    ensures var s1 := SaveRow(s, a.(emailConfirmed := true));
      && StoreInvariant(s1)
      && s1.accounts[a.email].emailConfirmed
      && SaveRow(s1, s1.accounts[a.email].(emailConfirmed := true)) == s1
  {
    SavePreservesInvariant(s, a.(emailConfirmed := true));
  }

  /** `toggle2FA` on the stored entity changes the table, and a second
      `toggle2FA` on the entity the first one saved restores it. */
  lemma ToggleInvolutive(s: Store, a: Account)
    requires a.email in s.accounts && s.accounts[a.email] == a
    ensures var s1 := SaveRow(s, a.(twoFa := !a.twoFa));
      && s1 != s
      && s1.accounts[a.email].twoFa != a.twoFa
      && SaveRow(s1, s1.accounts[a.email].(twoFa := !s1.accounts[a.email].twoFa)) == s
  {
    var s1 := SaveRow(s, a.(twoFa := !a.twoFa));
    assert s1.accounts[a.email] != s.accounts[a.email];
    assert s.accounts[a.email := a] == s.accounts;
  }

  /** The label `toggle2FA` answers with. */
  function ToggleLabel(enabled: bool): (text: string)
    ensures text == "Enabled" <==> enabled
  {
    if enabled then "Enabled" else "Disabled"
  }

  class UsersService {
    /** `Hash.make`, `Hash.compare`. */
    const hasher: Hasher
    var accounts: map<string, Account>
    var nextUuid: Uuid

    function State(): Store
      reads this
    {
      Store(accounts, nextUuid)
    }

    ghost predicate Valid()
      reads this
    {
      StoreInvariant(State())
    }

    /** `user` was read from the table: its row is stored under its email. */
    predicate Persisted(user: User)
      reads this, user
    {
      user.email in accounts && accounts[user.email].uuid == user.uuid
    }

    /** An empty table. */
    constructor (hasher: Hasher)
      ensures Valid() && State() == Store(map[], 1) && this.hasher == hasher
    {
      this.hasher := hasher;
      accounts, nextUuid := map[], 1;
    }

    /** `get(uuid)`: the entity stored under that key, if any. */
    method Get(uuid: Uuid) returns (user: User?)
      requires Valid()
      ensures user == null <==> forall e :: e in accounts ==> accounts[e].uuid != uuid
      ensures user != null ==> fresh(user) && user.uuid == uuid && user.email in accounts
                               && user.Row() == accounts[user.email]
    {
      if e :| e in accounts && accounts[e].uuid == uuid {
        user := new User.Load(accounts[e]);
      } else {
        user := null;
      }
    }

    /** `getByEmail(email)`: the entity stored under that email, if any. */
    method GetByEmail(email: string) returns (user: User?)
      requires Valid()
      ensures user == null <==> email !in accounts
      ensures user != null ==> fresh(user) && user.Row() == accounts[email] && Persisted(user)
    {
      if email in accounts {
        user := new User.Load(accounts[email]);
      } else {
        user := null;
      }
    }

    /** `setPassword`: the entity's password becomes a fresh hash of the new
        password and the entity is saved; nothing else changes. */
    method SetPassword(user: User, newPassword: string, salt: nat) returns (saved: User)
      requires Valid() && Persisted(user)
      modifies this`accounts, user
      ensures Valid() && saved == user && Persisted(user)
      ensures user.Row() == old(user.Row()).(password := Some(hasher.make(newPassword, salt)))
      ensures accounts == old(accounts)[user.email := user.Row()]
    {
      user.password := Some(hasher.make(newPassword, salt));
      saved := Save(user);
    }

    /** `setToTpURI`: stores the key and switches two-factor on. */
    method SetToTpURI(user: User, key: string) returns (saved: User)
      requires Valid() && Persisted(user)
      modifies this`accounts, user
      ensures Valid() && saved == user && Persisted(user)
      ensures user.Row() == old(user.Row()).(twoFaKey := Some(key), twoFa := true)
      ensures accounts == old(accounts)[user.email := user.Row()]
    {
      user.twoFaKey := Some(key);
      user.twoFa := true;
      saved := Save(user);
    }

    /** `createAdmin`: refuses a taken email, otherwise inserts a new entity
        carrying only the payload's email. */
    method CreateAdmin(payload: RegisterPayload) returns (r: Result<User, Error>)
      requires Valid()
      modifies this`accounts, this`nextUuid
      ensures Valid()
      ensures Snapshot(r) == Create(old(State()), payload.email).result
      ensures State() == Create(old(State()), payload.email).after
      ensures r.Ok? ==> fresh(r.value) && Persisted(r.value)
    {
      var user := GetByEmail(payload.email);
      if user != null {
        return Err(HttpException(UserAlreadyExists, BadRequest));
      }
      CreateOutcome(State(), payload.email);
      var entity := new User();
      var newUser := entity.FromDto(payload);
      assert newUser.Row() == NewAccount(UnassignedUuid, payload.email);
      r := Insert(newUser);
    }

    /** `confirmForgotPassword`: overwrites only the password column of the
        row with that email, and returns the entity read before the update. */
    method ConfirmForgotPassword(email: string, password: string, salt: nat) returns (r: Result<User, Error>)
      requires Valid()
      modifies this`accounts
      ensures Valid()
      ensures Snapshot(r) == ResetPassword(hasher, old(State()), email, password, salt).result
      ensures State() == ResetPassword(hasher, old(State()), email, password, salt).after
      ensures r.Ok? ==> fresh(r.value)
    {
      var user := GetByEmail(email);
      if user != null {
        var passwordHash := hasher.make(password, salt);
        accounts := accounts[email := accounts[email].(password := Some(passwordHash))];
        ResetPasswordOutcome(hasher, old(State()), email, password, salt);
        return Ok(user);
      } else {
        return Err(HttpException(UserDoesNotExist, NotFound));
      }
    }

    /** `updateEmailStatus`: marks the email confirmed and saves. */
    method UpdateEmailStatus(user: User) returns (confirmedUser: User)
      requires Valid() && Persisted(user)
      modifies this`accounts, user
      ensures Valid() && confirmedUser == user && Persisted(user)
      ensures user.Row() == old(user.Row()).(emailConfirmed := true)
      ensures accounts == old(accounts)[user.email := user.Row()]
    {
      user.emailConfirmed := true;
      confirmedUser := Save(user);
    }

    /** `toggle2FA`: negates the flag, saves, and answers with the new state. */
    method Toggle2FA(user: User) returns (answer: string)
      requires Valid() && Persisted(user)
      modifies this`accounts, user
      ensures Valid() && Persisted(user)
      ensures user.Row() == old(user.Row()).(twoFa := !old(user.twoFa))
      ensures accounts == old(accounts)[user.email := user.Row()]
      ensures answer == ToggleLabel(user.twoFa)
    {
      user.twoFa := !user.twoFa;
      var _ := Save(user);
      answer := if user.twoFa then "Enabled" else "Disabled";
    }

    /** `userRepository.save` on an entity that is already stored: its whole
        row is written back under its key. */
    method Save(user: User) returns (saved: User)
      requires Valid() && Persisted(user)
      modifies this`accounts
      ensures Valid() && saved == user && Persisted(user)
      ensures accounts == old(accounts)[user.email := user.Row()]
      ensures State() == SaveRow(old(State()), user.Row())
    {
      SavePreservesInvariant(State(), user.Row());
      accounts := accounts[user.email := user.Row()];
      saved := user;
    }

    /** `userRepository.save` on a new entity: the database rejects an email
        longer than its column, otherwise assigns the next key and inserts. */
    method Insert(user: User) returns (r: Result<User, Error>)
      requires Valid() && user.email !in accounts
      requires user.Row() == NewAccount(UnassignedUuid, user.email)
      modifies this`accounts, this`nextUuid, user
      ensures user.email == old(user.email)
      ensures Snapshot(r) == Create(old(State()), user.email).result
      ensures State() == Create(old(State()), user.email).after
      ensures r.Err? ==> unchanged(user)
      ensures r.Ok? ==> r.value == user && Persisted(user)
    {
      if |user.email| > MaxColumnLength {
        return Err(QueryFailed);
      }
      user.uuid := nextUuid;
      accounts := accounts[user.email := user.Row()];
      nextUuid := nextUuid + 1;
      r := Ok(user);
    }
  }
}
