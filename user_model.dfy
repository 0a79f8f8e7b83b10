/**
 * The user collection: one record per `authorId` (the key is unique), each
 * holding the user's whole task tree as one JSON-encoded string. Only the
 * queries the routes issue are modelled; timestamps are left out.
 */
module UserModel {
  import opened Wrappers
  import opened Js

  /** The `tasks` default of the schema, and `JSON.stringify([])`. */
  const EmptyTasks := "[]"

  /** Whether the schema accepts `id`, cast to `key`, as an `authorId`: the
      `required` validator refuses an undefined or null value and, for a
      string path, the empty string. (A value the cast refuses never gets
      here: the cast throws first.) */
  predicate Storable(id: Option<Json>, key: string) {
    id.Some? && !id.value.JNull? && key != ""
  }

  class UserStore {
    /** authorId -> encoded tasks. */
    var records: map<string, string>

    constructor ()
      ensures records == map[]
    {
      records := map[];
    }

    /** `User.findOne({ authorId })`: the record's tasks, if there is one. */
    method FindOne(authorId: string) returns (tasks: Option<string>)
      ensures tasks.Some? <==> authorId in records
      ensures tasks.Some? ==> tasks.value == records[authorId]
    {
      if authorId in records {
        tasks := Some(records[authorId]);
      } else {
        tasks := None;
      }
    }

    /** `User.create({ authorId, tasks })`: an empty `authorId` fails the
        `required` validator and a duplicate key is refused by the unique
        index (both reported as `created == false`, nothing changes); an
        omitted `tasks` takes the default "[]". */
    method Create(authorId: string, tasks: Option<string>) returns (created: bool)
      modifies this
      ensures created <==> authorId != "" && authorId !in old(records)
      ensures created ==> records == old(records)[authorId := tasks.GetOr(EmptyTasks)]
      ensures !created ==> records == old(records)
    {
      created := authorId != "" && authorId !in records;
      if created {
        records := records[authorId := tasks.GetOr(EmptyTasks)];
      }
    }

    /** `User.findOneAndDelete({ authorId })`: removes the record if present
        and returns what it held. */
    method FindOneAndDelete(authorId: string) returns (deleted: Option<string>)
      modifies this
      ensures deleted.Some? <==> authorId in old(records)
      ensures deleted.Some? ==> deleted.value == old(records)[authorId]
      ensures records == old(records) - {authorId}
    {
      if authorId in records {
        deleted := Some(records[authorId]);
      } else {
        deleted := None;
      }
      records := records - {authorId};
    }

    /** `user.tasks = tasks; await user.save()` on a record just found. */
    method SaveTasks(authorId: string, tasks: string)
      requires authorId in records
      modifies this
      ensures records == old(records)[authorId := tasks]
    {
      records := records[authorId := tasks];
    }
  }
}
