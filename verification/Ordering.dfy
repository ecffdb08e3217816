/** The lexicographic order that `BTreeMap` keys and `(time, id)` tuples are compared by. */
module Ordering {

  predicate Before(a: string, b: string)
  {
    b != "" && (a == "" || a[0] < b[0] || (a[0] == b[0] && Before(a[1..], b[1..])))
  }

  lemma Trichotomy(a: string, b: string)
    ensures Before(a, b) || a == b || Before(b, a)
  {
    if a != "" && b != "" && a[0] == b[0] {
      Trichotomy(a[1..], b[1..]);
      assert a == [a[0]] + a[1..] && b == [b[0]] + b[1..];
    }
  }

  lemma Asymmetric(a: string, b: string)
    requires Before(a, b)
    ensures !Before(b, a) && a != b
  {
    if a != "" && a[0] == b[0] {
      Asymmetric(a[1..], b[1..]);
    }
  }

  lemma Transitive(a: string, b: string, c: string)
    requires Before(a, b) && Before(b, c)
    ensures Before(a, c)
  {
    if a != "" && a[0] == b[0] == c[0] {
      Transitive(a[1..], b[1..], c[1..]);
    }
  }

  predicate Least(id: string, ids: set<string>)
  {
    id in ids && forall k | k in ids && k != id :: Before(id, k)
  }

  lemma {:induction false} LeastExists(ids: set<string>) returns (id: string)
    requires ids != {}
    ensures Least(id, ids)
  {
    id :| id in ids;
    var rest := ids - {id};
    assert forall k | k in ids && k != id :: k in rest;
    if rest != {} {
      var next := LeastExists(rest);
      Trichotomy(id, next);
      if Before(next, id) {
        id := next;
      } else {
        forall k | k in ids && k != id ensures Before(id, k) {
          if k != next { Transitive(id, next, k); }
        }
      }
    }
  }
}
