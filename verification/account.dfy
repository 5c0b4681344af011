/** The signed-in user as the component holds it: `null` when signed out. */
module Account {
  import opened Wrappers

  datatype User = User(id: string, name: string)

  /** `!!user`. */
  predicate SignedIn(user: Option<User>)
  {
    user.Some?
  }
}
