/**
 * The identity store behind the authentication service: user records as the
 * repository persists them (`IUser`), the repository's lookups, and the
 * conditions under which the document store refuses to create a record.
 *
 * The store is a sequence in insertion order; `findOne` returns the first
 * record that matches, as a collection scan in natural order does.
 */
module UserStore {
  import opened Common
  import opened Text

  /** `userType: 'regular' | 'pro'`. */
  datatype UserType = Regular | Pro

  /** A persisted user: `_id`, `name`, `email`, `avatar`, `password` (the stored hash) and `userType`. */
  datatype UserRecord = UserRecord(
    id: string,
    name: string,
    email: string,
    avatar: string,
    password: string,
    userType: UserType)

  /** `findById(id)`: the record whose `_id` is `id`, or `null`. */
  function RecordWithId(records: seq<UserRecord>, id: string): (r: Option<UserRecord>)
    ensures r.Some? ==> r.value in records && r.value.id == id
    ensures r.None? <==> forall i :: 0 <= i < |records| ==> records[i].id != id
    decreases |records|
  {
    if |records| == 0 then None
    else if records[0].id == id then Some(records[0])
    else RecordWithId(records[1..], id)
  }

  /** `findOne({ email })`: the first record whose email is `email`, or `null`. */
  function RecordWithEmail(records: seq<UserRecord>, email: string): (r: Option<UserRecord>)
    ensures r.Some? ==> r.value in records && r.value.email == email
    ensures r.None? <==> forall i :: 0 <= i < |records| ==> records[i].email != email
    decreases |records|
  {
    if |records| == 0 then None
    else if records[0].email == email then Some(records[0])
    else RecordWithEmail(records[1..], email)
  }

  /**
   * The user schema's validators exactly as declared: a required name of 1..15
   * characters, a required (non-empty) email, and a required password of 6..12
   * characters applied to the value being saved. Lengths are JavaScript
   * lengths, in UTF-16 code units.
   */
  predicate SchemaAcceptsAsWritten(u: UserRecord) {
    1 <= Utf16Length(u.name) <= 15 && u.email != "" && 6 <= Utf16Length(u.password) <= 12
  }

  /**
   * The validators the service can live with: the password that is saved is a
   * hash, so only the lower length bound is kept for it.
   */
  predicate SchemaAccepts(u: UserRecord) {
    1 <= Utf16Length(u.name) <= 15 && u.email != "" && 6 <= Utf16Length(u.password)
  }

  /** `_id` and the unique `email` index: no two records share either. */
  ghost predicate UniqueKeys(records: seq<UserRecord>) {
    forall i, j :: 0 <= i < j < |records| ==> records[i].id != records[j].id && records[i].email != records[j].email
  }

  /** `create(u)` succeeds: both keys are free and the validators accept the record. */
  predicate CanCreate(records: seq<UserRecord>, u: UserRecord) {
    RecordWithId(records, u.id).None? && RecordWithEmail(records, u.email).None? && SchemaAccepts(u)
  }

  /** A successful create keeps the keys unique, and the new record is found under both keys. */
  lemma CreateKeepsKeysUnique(records: seq<UserRecord>, u: UserRecord)
    requires UniqueKeys(records)
    requires CanCreate(records, u)
    ensures UniqueKeys(records + [u])
    ensures RecordWithId(records + [u], u.id) == Some(u)
    ensures RecordWithEmail(records + [u], u.email) == Some(u)
  {
    FoundAfterAppend(records, u);
  }

  /** A record appended under keys no earlier record uses is what both lookups return. */
  lemma {:induction false} FoundAfterAppend(records: seq<UserRecord>, u: UserRecord)
    requires RecordWithId(records, u.id).None?
    requires RecordWithEmail(records, u.email).None?
    ensures RecordWithId(records + [u], u.id) == Some(u)
    ensures RecordWithEmail(records + [u], u.email) == Some(u)
    decreases |records|
  {
    if |records| > 0 {
      assert (records + [u])[1..] == records[1..] + [u];
      FoundAfterAppend(records[1..], u);
    }
  }

  /** Appending a record does not change what an earlier-found key finds. */
  lemma {:induction false} RecordWithIdAfterAppend(records: seq<UserRecord>, u: UserRecord, id: string)
    requires RecordWithId(records, id).Some?
    ensures RecordWithId(records + [u], id) == RecordWithId(records, id)
    decreases |records|
  {
    if records[0].id != id {
      assert (records + [u])[1..] == records[1..] + [u];
      RecordWithIdAfterAppend(records[1..], u, id);
    }
  }

  /** The repository the service writes to: `UserRepository` over the `User` model. */
  class UserRepository {
    var records: seq<UserRecord>

    ghost predicate Valid()
      reads this
    {
      UniqueKeys(records)
    }

    constructor ()
      ensures Valid() && records == []
    {
      records := [];
    }

    function FindById(id: string): (r: Option<UserRecord>)
      reads this
      ensures r.Some? ==> r.value in records && r.value.id == id
      ensures r.None? <==> forall i :: 0 <= i < |records| ==> records[i].id != id
    {
      RecordWithId(records, id)
    }

    function FindByEmail(email: string): (r: Option<UserRecord>)
      reads this
      ensures r.Some? ==> r.value in records && r.value.email == email
      ensures r.None? <==> forall i :: 0 <= i < |records| ==> records[i].email != email
    {
      RecordWithEmail(records, email)
    }

    /** `create(userData)`: saves the record, or throws (duplicate key or a failed validator). */
    method Create(u: UserRecord) returns (ok: bool)
      requires Valid()
      modifies this
      ensures Valid()
      ensures ok == CanCreate(old(records), u)
      ensures records == if ok then old(records) + [u] else old(records)
    {
      ok := CanCreate(records, u);
      if ok {
        CreateKeepsKeysUnique(records, u);
        records := records + [u];
      }
    }
  }
}
