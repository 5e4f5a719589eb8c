/** Thread identifiers, and the order in which a std::set of them is gone through. */
module Tids {
  type Tid = t: int | t > 0 witness 1

  predicate IsLeast(t: Tid, s: set<Tid>) {
    t in s && forall u :: u in s ==> t <= u
  }

  lemma {:induction false} LeastExists(s: set<Tid>) returns (t: Tid)
    requires s != {}
    ensures IsLeast(t, s)
    decreases |s|
  {
    t :| t in s;
    var rest := s - {t};
    if rest != {} {
      var y := LeastExists(rest);
      assert forall u :: u in s ==> u == t || u in rest;
      if y < t { t := y; }
    }
  }

  lemma SomeLeast(s: set<Tid>)
    requires s != {}
    ensures exists t :: IsLeast(t, s)
  {
    var t := LeastExists(s);
  }

  function Least(s: set<Tid>): (t: Tid)
    requires s != {}
    ensures t in s && forall u :: u in s ==> t <= u
  {
    SomeLeast(s);
    var t :| t in s && IsLeast(t, s);
    t
  }
}
