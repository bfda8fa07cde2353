/** Taking elements of a set in an order of its own. */
module Sets {

  method AnyOf<T>(s: set<T>) returns (x: T)
    requires s != {}
    ensures x in s
  {
    x :| x in s;
  }
}
