/** Lists of job ids and what is left of them when some ids are taken out. */
module JobLists {
  function Elements(list: seq<string>): set<string> {
    set j | j in list
  }

  // list.filter(id => !gone.includes(id))
  function Without(list: seq<string>, gone: set<string>): (r: seq<string>)
    ensures |r| <= |list|
    ensures forall j :: j in r <==> j in list && j !in gone
  {
    if list == [] then []
    else if list[0] in gone then Without(list[1..], gone)
    else [list[0]] + Without(list[1..], gone)
  }

  lemma {:induction false} WithoutTwice(list: seq<string>, a: set<string>, b: set<string>)
    ensures Without(Without(list, a), b) == Without(list, a + b)
  {
    if list != [] {
      WithoutTwice(list[1..], a, b);
      if list[0] !in a {
        assert Without(list, a)[1..] == Without(list[1..], a);
      }
    }
  }

  // Only what happens to the elements of the list matters.
  lemma {:induction false} WithoutSame(list: seq<string>, a: set<string>, b: set<string>)
    requires forall j :: j in list ==> (j in a <==> j in b)
    ensures Without(list, a) == Without(list, b)
  {
    if list != [] {
      WithoutSame(list[1..], a, b);
    }
  }

  lemma {:induction false} WithoutNothing(list: seq<string>, gone: set<string>)
    requires forall j :: j in list ==> j !in gone
    ensures Without(list, gone) == list
  {
    if list != [] {
      WithoutNothing(list[1..], gone);
    }
  }
}
