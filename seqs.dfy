/** Generic facts about sequences: flattening, duplicate-freedom, duplicate removal. */
module Seqs {

  /** Concatenation of a sequence of sequences, left to right (`"".join(parts)` for strings). */
  function Flatten<T>(ss: seq<seq<T>>): seq<T>
  {
    if ss == [] then [] else Flatten(ss[..|ss| - 1]) + ss[|ss| - 1]
  }

  lemma {:induction false} FlattenAppend<T>(a: seq<seq<T>>, b: seq<seq<T>>)
    ensures Flatten(a + b) == Flatten(a) + Flatten(b)
    decreases |b|
  {
    if b == [] {
      assert a + b == a;
    } else {
      var init, last := b[..|b| - 1], b[|b| - 1];
      FlattenAppend(a, init);
      assert b == init + [last];
      assert a + b == (a + init) + [last];
      FlattenSnoc(a + init, last);
      FlattenSnoc(init, last);
      AppendAssociative(Flatten(a), Flatten(init), last);
    }
  }

  lemma FlattenSnoc<T>(ss: seq<seq<T>>, x: seq<T>)
    ensures Flatten(ss + [x]) == Flatten(ss) + x
  {
    assert (ss + [x])[..|ss|] == ss;
  }

  lemma FlattenCons<T>(x: seq<T>, rest: seq<seq<T>>)
    ensures Flatten([x] + rest) == x + Flatten(rest)
  {
    FlattenAppend([x], rest);
    assert [x][..0] == [];
  }

  lemma AppendAssociative<T>(a: seq<T>, b: seq<T>, c: seq<T>)
    ensures a + b + c == a + (b + c)
  {
  }

  /** No element occurs twice. */
  predicate NoDup<T(==)>(s: seq<T>)
  {
    forall i, j :: 0 <= i < j < |s| ==> s[i] != s[j]
  }

  /**
   * Removes repeated elements, keeping each first occurrence in place; the model's
   * stand-in for Python's `list(set(xs))`, whose order the language leaves unspecified.
   */
  function Dedup<T(==)>(s: seq<T>): (r: seq<T>)
    ensures |r| <= |s|
  {
    if s == [] then []
    else
      var init := Dedup(s[..|s| - 1]);
      var last := s[|s| - 1];
      if last in init then init else init + [last]
  }

  lemma DedupSnoc<T>(s: seq<T>, x: T)
    ensures Dedup(s + [x]) == if x in Dedup(s) then Dedup(s) else Dedup(s) + [x]
  {
    assert (s + [x])[..|s|] == s;
  }

  /** `Dedup` leaves no element twice. */
  lemma {:induction false} DedupNoDup<T>(s: seq<T>)
    ensures NoDup(Dedup(s))
  {
    if s != [] {
      var init := s[..|s| - 1];
      DedupNoDup(init);
      DedupMembers(init, s[|s| - 1]);
    }
  }

  /** `Dedup` keeps every element and adds none. */
  lemma {:induction false} DedupMembers<T>(s: seq<T>, x: T)
    ensures x in Dedup(s) <==> x in s
  {
    if s != [] {
      var init := s[..|s| - 1];
      DedupMembers(init, x);
      assert s == init + [s[|s| - 1]];
    }
  }

  /** A duplicate-free sequence is its own `Dedup`. */
  lemma {:induction false} DedupOfNoDup<T>(s: seq<T>)
    requires NoDup(s)
    ensures Dedup(s) == s
  {
    if s != [] {
      var init := s[..|s| - 1];
      assert NoDup(init);
      DedupOfNoDup(init);
      assert s[|s| - 1] !in init;
      assert init + [s[|s| - 1]] == s;
    }
  }

  /** Removing the element at `k` removes one occurrence of it from the multiset. */
  lemma MultisetRemove<T>(s: seq<T>, k: nat)
    requires k < |s|
    ensures multiset(s[..k] + s[k + 1..]) == multiset(s) - multiset{s[k]}
  {
    assert s == s[..k] + [s[k]] + s[k + 1..];
  }

  /** An element of a sequence's multiset sits at some index. */
  lemma MultisetIndex<T>(s: seq<T>, x: T) returns (k: nat)
    requires x in multiset(s)
    ensures k < |s| && s[k] == x
  {
    assert x in s;
    k := MemberIndex(s, x);
  }

  /** An element of a sequence sits at some index. */
  lemma MemberIndex<T>(s: seq<T>, x: T) returns (k: nat)
    requires x in s
    ensures k < |s| && s[k] == x
  {
    k :| k < |s| && s[k] == x;
  }

  /** An element of a flattened sequence comes from one of its parts, and each part's elements are in it. */
  lemma {:induction false} FlattenMember<T>(ss: seq<seq<T>>, x: T)
    ensures x in Flatten(ss) <==> exists k :: 0 <= k < |ss| && x in ss[k]
  {
    if ss != [] {
      var init, last := ss[..|ss| - 1], ss[|ss| - 1];
      FlattenMember(init, x);
      assert Flatten(ss) == Flatten(init) + last;
      assert x in Flatten(ss) <==> x in Flatten(init) || x in last;
      if exists k :: 0 <= k < |ss| && x in ss[k] {
        var k :| 0 <= k < |ss| && x in ss[k];
        if k < |init| {
          assert init[k] == ss[k];
        }
      }
      if x in Flatten(init) {
        var k :| 0 <= k < |init| && x in init[k];
        assert ss[k] == init[k];
      }
    }
  }

  /** `a` occurs in `b` as a contiguous block starting at index `i`. */
  ghost predicate InfixAt<T>(a: seq<T>, b: seq<T>, i: int)
  {
    0 <= i && i + |a| <= |b| && b[i..i + |a|] == a
  }

  /** `a` occurs in `b` as a contiguous block. */
  ghost predicate Infix<T>(a: seq<T>, b: seq<T>)
  {
    exists i :: InfixAt(a, b, i)
  }

  lemma InfixAppend<T>(a: seq<T>, b: seq<T>, left: seq<T>, right: seq<T>)
    requires Infix(a, b)
    ensures Infix(a, left + b + right)
  {
    var i :| InfixAt(a, b, i);
    var c := left + b + right;
    assert c[|left| + i..|left| + i + |a|] == b[i..i + |a|];
    assert InfixAt(a, c, |left| + i);
  }

  /** A sequence is a block at the end of anything that ends with it. */
  lemma InfixLast<T>(pre: seq<T>, a: seq<T>)
    ensures Infix(a, pre + a)
  {
    assert (pre + a)[|pre|..|pre| + |a|] == a;
    assert InfixAt(a, pre + a, |pre|);
  }

  /** A block of `b` stays a block of `b + c`. */
  lemma InfixExtend<T>(a: seq<T>, b: seq<T>, c: seq<T>)
    requires Infix(a, b)
    ensures Infix(a, b + c)
  {
    var i :| InfixAt(a, b, i);
    assert (b + c)[i..i + |a|] == b[i..i + |a|];
    assert InfixAt(a, b + c, i);
  }

  /** A block of `b` stays a block of `left + b`. */
  lemma InfixPrepend<T>(a: seq<T>, b: seq<T>, left: seq<T>)
    requires Infix(a, b)
    ensures Infix(a, left + b)
  {
    var i :| InfixAt(a, b, i);
    assert (left + b)[|left| + i..|left| + i + |a|] == b[i..i + |a|];
    assert InfixAt(a, left + b, |left| + i);
  }

  /** Each element of a block is an element of whatever holds the block. */
  lemma InfixMember<T>(a: seq<T>, b: seq<T>, x: T)
    requires Infix(a, b) && x in a
    ensures x in b
  {
    var i :| InfixAt(a, b, i);
    var k :| 0 <= k < |a| && a[k] == x;
    assert b[i + k] == b[i..i + |a|][k];
  }

  /** An element of `front` keeps its index in `front + back`. */
  lemma IndexInFront<T>(front: seq<T>, back: seq<T>, i: nat) returns (j: nat)
    requires i < |front|
    ensures j < |front + back| && (front + back)[j] == front[i]
  {
    j := i;
  }

  /** The first element of `back` is at index `|front|` of `front + back`. */
  lemma IndexOfBack<T>(front: seq<T>, back: seq<T>) returns (j: nat)
    requires back != []
    ensures j < |front + back| && (front + back)[j] == back[0]
  {
    j := |front|;
  }

  /** The last three pieces of a concatenation are its suffix of their combined length. */
  lemma EndsWithLastThree<T>(front: seq<T>, a: seq<T>, b: seq<T>, c: seq<T>)
    ensures var r := front + a + b + c;
            |r| >= |a + b + c| && r[|r| - |a + b + c|..] == a + b + c
  {
    assert front + a + b + c == front + (a + b + c);
  }

  /** When `r` starts with `p + m`, it starts with `p` and holds `m` right after it. */
  lemma PieceAt<T>(r: seq<T>, p: seq<T>, m: seq<T>)
    requires |p| + |m| <= |r| && r[..|p| + |m|] == p + m
    ensures r[..|p|] == p && r[|p|..|p| + |m|] == m
  {
    assert r[..|p|] == (p + m)[..|p|];
    assert r[|p|..|p| + |m|] == (p + m)[|p|..];
  }
}
