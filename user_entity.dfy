/** The `admins` table row and the `User` entity (src/modules/user/user.entity.ts). */
module UserEntity {
  import opened Wrappers
  import opened Responses
  import opened AuthDtos

  /** The generated primary key. The store numbers rows from 1. */
  type Uuid = nat

  /** The key of an entity that has not been inserted yet. */
  const UnassignedUuid: Uuid := 0

  /** `length: 255` on the email, password and twoFaKey columns. */
  const MaxColumnLength: nat := 255

  /** One row: `password` and `twoFaKey` are nullable columns. */
  datatype Account = Account(
    uuid: Uuid,
    email: string,
    password: Option<string>,
    twoFa: bool,
    twoFaKey: Option<string>,
    emailConfirmed: bool)

  /** A row as first inserted: only the email is given, the nullable columns
      are null and the two flags take their default `false`. */
  function NewAccount(uuid: Uuid, email: string): Account
  {
    Account(uuid, email, None, false, None, false)
  }

  /** What `toJSON` and `toDto` return: every column but `password`. */
  datatype PublicUser = PublicUser(
    uuid: Uuid,
    email: string,
    twoFa: bool,
    twoFaKey: Option<string>,
    emailConfirmed: bool)

  /** What `toJSON` and `toDto` both compute from the entity's row:
      `const { password, ...self } = this`. */
  function Public(a: Account): PublicUser
  {
    PublicUser(a.uuid, a.email, a.twoFa, a.twoFaKey, a.emailConfirmed)
  }

  /** The outward representation forgets the password and nothing else: two
      rows look the same exactly when they differ at most in their password. */
  lemma PublicForgetsOnlyPassword(a: Account, b: Account)
    ensures Public(a) == Public(b) <==> a.(password := b.password) == b
  {
  }

  /** As written, the outward representation carries the two-factor secret:
      an account whose key is set shows that key. */
  lemma PublicExposesTwoFaKey(a: Account)
    requires a.twoFaKey.Some?
    ensures Public(a).twoFaKey == a.twoFaKey && Public(a).twoFaKey.Some?
  {
  }

  /** The representation without either secret. */
  datatype RedactedUser = RedactedUser(uuid: Uuid, email: string, twoFa: bool, emailConfirmed: bool)

  function Redacted(a: Account): RedactedUser
  {
    RedactedUser(a.uuid, a.email, a.twoFa, a.emailConfirmed)
  }

  /** The redacted representation forgets the password and the two-factor key
      and nothing else. */
  lemma RedactedHidesSecrets(a: Account, b: Account)
    ensures Redacted(a) == Redacted(b) <==> a.(password := b.password, twoFaKey := b.twoFaKey) == b
  {
  }

  /** The entity object the services fetch, change field by field and save. */
  class User {
    var uuid: Uuid
    var email: string
    var password: Option<string>
    var twoFa: bool
    var twoFaKey: Option<string>
    var emailConfirmed: bool

    /** `new User()`: not inserted yet, every column at its default. */
    constructor ()
      ensures Row() == NewAccount(UnassignedUuid, [])
    {
      uuid, email, password := UnassignedUuid, [], None;
      twoFa, twoFaKey, emailConfirmed := false, None, false;
    }

    /** The entity the repository builds from a stored row. */
    constructor Load(row: Account)
      ensures Row() == row
    {
      uuid, email, password := row.uuid, row.email, row.password;
      twoFa, twoFaKey, emailConfirmed := row.twoFa, row.twoFaKey, row.emailConfirmed;
    }

    /** The row this object would be saved as. */
    function Row(): Account
      reads this
    {
      Account(uuid, email, password, twoFa, twoFaKey, emailConfirmed)
    }

    /** Copies the email of the payload and returns this same object. */
    method FromDto(payload: RegisterPayload) returns (r: User)
      modifies this
      ensures r == this
      ensures Row() == old(Row()).(email := payload.email)
    {
      email := payload.email;
      r := this;
    }
  }

  /** The row behind a result that carries an entity. */
  function Snapshot(r: Result<User, Error>): Result<Account, Error>
    reads if r.Ok? then {r.value} else {}
  {
    match r
    case Ok(u) => Ok(u.Row())
    case Err(e) => Err(e)
  }
}
