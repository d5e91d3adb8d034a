/**
 * The note record the calendar shows.  A moment carries what the views read
 * from it: the time value (`getTime`), the local hour and minute (`getHours`,
 * `getMinutes`) and the calendar date it falls on once projected to India
 * Standard Time.  How those are derived from one another depends on the
 * runtime's time zone, so they are independent inputs here.
 */
module NoteTypes {

  datatype User = User(id: string, firstName: string, lastName: string, email: string, imageUrl: string)

  datatype Tag = Tag(id: string, tag: string)

  /** `users.map(user => user.id)`. */
  function UserIds(users: seq<User>): (ids: seq<string>)
    ensures |ids| == |users| && forall i :: 0 <= i < |ids| ==> ids[i] == users[i].id
  {
    if users == [] then [] else [users[0].id] + UserIds(users[1..])
  }

  /** `tags.map(tag => tag.id)`. */
  function TagIds(tags: seq<Tag>): (ids: seq<string>)
    ensures |ids| == |tags| && forall i :: 0 <= i < |ids| ==> ids[i] == tags[i].id
  {
    if tags == [] then [] else [tags[0].id] + TagIds(tags[1..])
  }

  /** A calendar date as year, 0-based month and day of month. */
  datatype DateKey = DateKey(year: nat, month: nat, day: nat)

  datatype Moment = Moment(ms: int, hour: nat, minute: nat, istDate: DateKey)
  {
    predicate Valid() {
      hour < 24 && minute < 60
    }
  }

  datatype Note = Note(id: string, title: string, start: Moment, end: Moment,
                       attendees: seq<User>, tags: seq<Tag>)
  {
    predicate Valid() {
      start.Valid() && end.Valid()
    }
  }
}
