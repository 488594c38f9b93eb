/** What several parts share: optional values and the first occurrence of a value. */
module Common {
  datatype Option<T> = None | Some(value: T)

  /** Position of the first `b`, or the length. */
  function IndexOf<T(==)>(s: seq<T>, b: T): (i: nat)
    ensures i <= |s|
  {
    if s == [] || s[0] == b then 0 else 1 + IndexOf(s[1..], b)
  }

  lemma {:induction false} IndexMeans<T>(s: seq<T>, b: T)
    ensures IndexOf(s, b) < |s| ==> s[IndexOf(s, b)] == b
    ensures forall j | 0 <= j < IndexOf(s, b) :: s[j] != b
  {
    if s != [] && s[0] != b {
      IndexMeans(s[1..], b);
      forall j | 0 < j < IndexOf(s, b)
        ensures s[j] != b
      {
        assert s[j] == s[1..][j - 1];
      }
    }
  }

  /** The first match of a prefix that has one is the first match. */
  lemma {:induction false} IndexInPrefix<T>(a: seq<T>, t: seq<T>, b: T)
    ensures b in a ==> IndexOf(a + t, b) == IndexOf(a, b) < |a|
    ensures b !in a ==> IndexOf(a + t, b) == |a| + IndexOf(t, b)
  {
    if a == [] {
      assert a + t == t;
    } else {
      assert (a + t)[1..] == a[1..] + t;
      IndexInPrefix(a[1..], t, b);
    }
  }

  lemma {:induction false} IndexAt<T>(s: seq<T>, b: T, i: nat)
    requires i < |s| && s[i] == b && forall j | 0 <= j < i :: s[j] != b
    ensures IndexOf(s, b) == i
    decreases i
  {
    if i > 0 {
      IndexAt(s[1..], b, i - 1);
    }
  }

  /** The values that are there, in order. */
  function Somes<T>(os: seq<Option<T>>): seq<T> {
    if os == [] then [] else (if os[0].Some? then [os[0].value] else []) + Somes(os[1..])
  }

  lemma {:induction false} SomesSnoc<T>(os: seq<Option<T>>, o: Option<T>)
    ensures Somes(os + [o]) == Somes(os) + if o.Some? then [o.value] else []
  {
    if os == [] {
      assert os + [o] == [o] && [o][1..] == [];
    } else {
      assert (os + [o])[1..] == os[1..] + [o];
      SomesSnoc(os[1..], o);
    }
  }
}
