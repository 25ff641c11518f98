/** The stores the lifecycle talks to but does not own: the blob store (an
    upload yields a fresh reference), the notifier (a send appends to an
    outbox) and the user table (read by id). */
module Collaborators {
  import opened Domain

  newtype byte = x: int | 0 <= x < 256

  datatype StoredFile = StoredFile(filename: string, data: seq<byte>, contentType: string)

  /** Blob store: uploads are kept in order and the reference is the upload's
      position, so a new reference never names an earlier file. */
  class BlobStore {
    var files: seq<StoredFile>

    constructor ()
      ensures files == []
    {
      files := [];
    }

    method Upload(filename: string, data: seq<byte>, contentType: string) returns (ref: FileRef)
      modifies this
      ensures ref == |old(files)|
      ensures files == old(files) + [StoredFile(filename, data, contentType)]
      ensures files[ref].data == data
    {
      ref := |files|;
      files := files + [StoredFile(filename, data, contentType)];
    }
  }

  /** A notification: recipient address and subject. */
  datatype Mail = Mail(to: string, subject: string)

  /** Notifier: fire-and-forget, modelled as an append-only outbox. */
  class Mailer {
    var outbox: seq<Mail>

    constructor ()
      ensures outbox == []
    {
      outbox := [];
    }

    method Send(to: string, subject: string)
      modifies this
      ensures outbox == old(outbox) + [Mail(to, subject)]
    {
      outbox := outbox + [Mail(to, subject)];
    }
  }

  /** The user table, read by id only. */
  class UserRepository {
    var users: map<UserId, User>

    ghost predicate Valid()
      reads this
    {
      forall uid :: uid in users ==> users[uid].id == uid
    }

    constructor ()
      ensures Valid() && users == map[]
    {
      users := map[];
    }

    method GetById(uid: UserId) returns (r: Option<User>)
      requires Valid()
      ensures r.Some? <==> uid in users
      ensures r.Some? ==> r.value == users[uid] && r.value.id == uid
    {
      r := if uid in users then Some(users[uid]) else None;
    }
  }

  /** Python's `value or fallback` on a string: the fallback replaces an empty value. */
  function OrDefault(value: string, fallback: string): string {
    if value == [] then fallback else value
  }

  /** The mail a lookup yields: one message when the user exists, none otherwise. */
  function MailTo(users: map<UserId, User>, uid: UserId, subject: string): seq<Mail> {
    if uid in users then [Mail(users[uid].emailAddress, subject)] else []
  }
}
