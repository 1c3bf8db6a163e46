/** Facts about finite sets that several modules use. */
module Sets {
  /** Some member of a non-empty set; also the witness that lets a method choose one. */
  ghost function Member<T>(s: set<T>): (t: T)
    requires s != {}
    ensures t in s
  {
    var t :| t in s;
    t
  }

  ghost function MultisetMember<T>(s: multiset<T>): (t: T)
    requires |s| > 0
    ensures t in s
  {
    var t :| t in s;
    t
  }
}
