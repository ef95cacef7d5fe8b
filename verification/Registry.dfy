/** The lists of sessions that the registry keeps for each user, for handlers of any type. */
module Registry {

  predicate NoDup<H(==)>(hs: seq<H>) {
    forall i, j | 0 <= i < j < |hs| :: hs[i] != hs[j]
  }

  function AddSession<H>(sessions: map<int, seq<H>>, user: int, h: H): map<int, seq<H>> {
    sessions[user := (if user in sessions then sessions[user] else []) + [h]]
  }

  /** `erase(remove(...))`: the list without any occurrence of `h`, in the same order. */
  function Without<H(==)>(hs: seq<H>, h: H): (r: seq<H>)
    ensures forall x | x in r :: x in hs && x != h
    ensures forall x | x in hs && x != h :: x in r
    ensures |r| <= |hs|
  {
    if hs == [] then []
    else
      var front, last := Without(hs[..|hs| - 1], h), hs[|hs| - 1];
      if last == h then front else front + [last]
  }

  function RemoveSession<H(==)>(sessions: map<int, seq<H>>, user: int, h: H): map<int, seq<H>> {
    if user !in sessions then sessions
    else
      var rest := Without(sessions[user], h);
      if rest == [] then sessions - {user} else sessions[user := rest]
  }

  lemma {:induction false} WithoutKeepsNoDup<H>(hs: seq<H>, h: H)
    requires NoDup(hs)
    ensures NoDup(Without(hs, h))
  {
    if hs != [] {
      WithoutKeepsNoDup(hs[..|hs| - 1], h);
      assert hs[|hs| - 1] !in hs[..|hs| - 1];
    }
  }

  lemma {:induction false} WithoutAbsent<H>(hs: seq<H>, h: H)
    requires h !in hs
    ensures Without(hs, h) == hs
  {
    if hs != [] {
      WithoutAbsent(hs[..|hs| - 1], h);
      assert hs == hs[..|hs| - 1] + [hs[|hs| - 1]];
    }
  }

  /** Taking the one occurrence out leaves the others in their order. */
  lemma {:induction false} WithoutTheOne<H>(a: seq<H>, h: H, b: seq<H>)
    requires h !in a && h !in b
    ensures Without(a + [h] + b, h) == a + b
  {
    var hs := a + [h] + b;
    if b == [] {
      assert hs[..|hs| - 1] == a && a + b == a;
      WithoutAbsent(a, h);
    } else {
      WithoutTheOne(a, h, b[..|b| - 1]);
      assert hs[..|hs| - 1] == a + [h] + b[..|b| - 1];
      assert a + b == a + b[..|b| - 1] + [b[|b| - 1]];
    }
  }
}
