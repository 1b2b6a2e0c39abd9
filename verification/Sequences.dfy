/** Facts about sequences that more than one component uses. */
module Sequences {
  function Elements<T(==)>(list: seq<T>): set<T> {
    set x | x in list
  }

  lemma Reassociate<T>(a: seq<T>, b: seq<T>, c: seq<T>)
    ensures (a + b) + c == a + (b + c)
  {
  }

  lemma {:induction false} Listing<T>(s: set<T>) returns (list: seq<T>)
    ensures Elements(list) == s
  {
    if s == {} {
      list := [];
    } else {
      var x :| x in s;
      var rest := Listing(s - {x});
      list := rest + [x];
      assert Elements(list) == Elements(rest) + {x};
    }
  }
}
