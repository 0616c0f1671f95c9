/** The `User` record served by the user endpoints and read by the export service. */
module Users {

  datatype User = User(id: int, name: string, email: string)

  /** No two entries of a table share an id. */
  predicate DistinctIds(users: seq<User>) {
    forall i, j :: 0 <= i < j < |users| ==> users[i].id != users[j].id
  }
}
