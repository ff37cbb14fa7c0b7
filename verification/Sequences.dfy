/** Small facts about sequences shared by the other modules. */
module Sequences {

  datatype Option<+T> = None | Some(value: T)

  /** The concatenation of a sequence of sequences. */
  function Flatten<T>(ss: seq<seq<T>>): seq<T> {
    if ss == [] then [] else ss[0] + Flatten(ss[1..])
  }

  lemma ConcatAssoc<T>(a: seq<T>, b: seq<T>, c: seq<T>)
    ensures a + (b + c) == a + b + c
  {
  }

  lemma {:induction false} FlattenConcat<T>(a: seq<seq<T>>, b: seq<seq<T>>)
    ensures Flatten(a + b) == Flatten(a) + Flatten(b)
  {
    if a == [] {
      assert a + b == b;
    } else {
      assert (a + b)[1..] == a[1..] + b;
      FlattenConcat(a[1..], b);
    }
  }

  lemma FlattenSnoc<T>(a: seq<seq<T>>, x: seq<T>)
    ensures Flatten(a + [x]) == Flatten(a) + x
  {
    FlattenConcat(a, [x]);
    assert Flatten([x]) == x;
  }

  lemma TakeMore<T>(s: seq<T>, n: nat, x: nat)
    requires n + x <= |s|
    ensures s[..n] + s[n..n + x] == s[..n + x]
    ensures s[n..][..x] == s[n..n + x]
  {
  }

  function Reverse<T>(s: seq<T>): (r: seq<T>)
    ensures |r| == |s|
  {
    if s == [] then [] else Reverse(s[1..]) + [s[0]]
  }

  lemma {:induction false} ReverseAt<T>(s: seq<T>, k: nat)
    requires k < |s|
    ensures Reverse(s)[k] == s[|s| - 1 - k]
  {
    if k < |s| - 1 {
      ReverseAt(s[1..], k);
    }
  }

  lemma ReverseSnoc<T>(s: seq<T>, x: T)
    ensures Reverse(s + [x]) == [x] + Reverse(s)
  {
    forall k | 0 <= k < |s| + 1
      ensures Reverse(s + [x])[k] == ([x] + Reverse(s))[k]
    {
      ReverseAt(s + [x], k);
      if k > 0 {
        ReverseAt(s, k - 1);
      }
    }
  }

  /** `s` is what is left of `t` after deleting some of its elements. */
  ghost predicate Subsequence<T>(s: seq<T>, t: seq<T>) {
    s == [] ||
    (t != [] && (Subsequence(s, t[..|t| - 1]) ||
                 (s[|s| - 1] == t[|t| - 1] && Subsequence(s[..|s| - 1], t[..|t| - 1]))))
  }

  lemma SubsequenceSkip<T>(s: seq<T>, t: seq<T>, x: T)
    requires Subsequence(s, t)
    ensures Subsequence(s, t + [x])
  {
    assert (t + [x])[..|t|] == t;
  }

  lemma SubsequenceKeep<T>(s: seq<T>, t: seq<T>, x: T)
    requires Subsequence(s, t)
    ensures Subsequence(s + [x], t + [x])
  {
    assert (t + [x])[..|t|] == t;
    assert (s + [x])[..|s|] == s;
  }

  lemma {:induction false} SubsequenceExtend<T>(s: seq<T>, t: seq<T>, u: seq<T>, keep: nat)
    requires Subsequence(s, t)
    requires keep <= |u|
    ensures Subsequence(s + u[..keep], t + u)
    decreases |u|
  {
    if u == [] {
      assert s + u[..keep] == s && t + u == t;
    } else {
      var v, x := u[..|u| - 1], u[|u| - 1];
      assert t + u == t + v + [x];
      if keep == |u| {
        SubsequenceExtend(s, t, v, |v|);
        SubsequenceKeep(s + v[..|v|], t + v, x);
        assert s + u[..keep] == s + v[..|v|] + [x];
      } else {
        SubsequenceExtend(s, t, v, keep);
        SubsequenceSkip(s + v[..keep], t + v, x);
        assert v[..keep] == u[..keep];
      }
    }
  }
}

/** Sizes of the C++ types. */
module Limits {
  const INT_MAX := 0x7fff_ffff
}
