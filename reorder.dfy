/**
 * The "remember the successful address" update of `Rowser.execute`:
 * `addrs.delete_at(addrs.index(w))` followed by `addrs.push(w).reverse!`.
 * This puts the winner first and leaves the other addresses REVERSED,
 * so it is not a plain move-to-front.
 */
module Reorder {

  /** Ruby's `Array#index`: the first position holding `x`. */
  function IndexOf<T(==)>(s: seq<T>, x: T): (k: nat)
    requires x in s
    ensures k < |s| && s[k] == x
    ensures forall j :: 0 <= j < k ==> s[j] != x
  {
    if s[0] == x then 0 else 1 + IndexOf(s[1..], x)
  }

  /** Ruby's `Array#delete_at`: the list without position k. */
  function DeleteAt<T>(s: seq<T>, k: nat): (r: seq<T>)
    requires k < |s|
    ensures |r| == |s| - 1
    ensures forall j :: 0 <= j < k ==> r[j] == s[j]
    ensures forall j :: k <= j < |r| ==> r[j] == s[j + 1]
  {
    s[..k] + s[k + 1..]
  }

  /** Ruby's `Array#reverse!`, on values. */
  function Reverse<T>(s: seq<T>): seq<T>
  {
    if s == [] then [] else Reverse(s[1..]) + [s[0]]
  }

  /** The list after the successful address `w` has been remembered. */
  function Promote<T(==)>(s: seq<T>, w: T): seq<T>
    requires w in s
  {
    Reverse(DeleteAt(s, IndexOf(s, w)) + [w])
  }

  /** Position k of the reversal is position |s| - 1 - k of the list. */
  lemma {:induction false} ReverseAt<T>(s: seq<T>, k: nat)
    requires k < |s|
    ensures |Reverse(s)| == |s|
    ensures Reverse(s)[k] == s[|s| - 1 - k]
  {
    if |s| > 1 {
      ReverseAt(s[1..], if k < |s| - 1 then k else 0);
    }
  }

  /** Reversal keeps every element with its multiplicity. */
  lemma {:induction false} ReverseMultiset<T>(s: seq<T>)
    ensures multiset(Reverse(s)) == multiset(s)
  {
    if s != [] {
      ReverseMultiset(s[1..]);
      assert s == [s[0]] + s[1..];
    }
  }

  /** Reversing a list ending in x puts x first and reverses the rest. */
  lemma {:induction false} ReverseSnoc<T>(s: seq<T>, x: T)
    ensures Reverse(s + [x]) == [x] + Reverse(s)
  {
    if s == [] {
      assert [x][1..] == [];
    } else {
      assert (s + [x])[1..] == s[1..] + [x];
      ReverseSnoc(s[1..], x);
    }
  }

  /** Reversing twice gives the list back. */
  lemma {:induction false} ReverseReverse<T>(s: seq<T>)
    ensures Reverse(Reverse(s)) == s
  {
    if s != [] {
      ReverseReverse(s[1..]);
      ReverseSnoc(Reverse(s[1..]), s[0]);
      assert s == [s[0]] + s[1..];
    }
  }

  /** Removing one occurrence of w and adding w back keeps the multiset. */
  lemma DeleteAtMultiset<T>(s: seq<T>, k: nat)
    requires k < |s|
    ensures multiset(DeleteAt(s, k)) + multiset{s[k]} == multiset(s)
  {
    assert s == s[..k] + [s[k]] + s[k + 1..];
  }

  /** Remembering the winner w: the same addresses with their multiplicities,
      w first, and the others in the reverse of their previous order. */
  lemma PromoteShape<T>(s: seq<T>, w: T)
    requires w in s
    ensures multiset(Promote(s, w)) == multiset(s)
    ensures |Promote(s, w)| == |s|
    ensures Promote(s, w)[0] == w
    ensures Promote(s, w)[1..] == Reverse(DeleteAt(s, IndexOf(s, w)))
  {
    var rest := DeleteAt(s, IndexOf(s, w));
    ReverseSnoc(rest, w);
    ReverseMultiset(rest);
    DeleteAtMultiset(s, IndexOf(s, w));
    if rest != [] {
      ReverseAt(rest, 0);
    } else {
      assert Reverse(rest) == [];
    }
    assert Promote(s, w) == [w] + Reverse(rest);
  }

  /** Remembering the same winner twice in a row restores the others' order:
      the tail flips on every success, so two make a move-to-front. */
  lemma PromoteTwice<T>(s: seq<T>, w: T)
    requires w in s
    ensures w in Promote(s, w)
    ensures Promote(Promote(s, w), w) == [w] + DeleteAt(s, IndexOf(s, w))
  {
    var rest := DeleteAt(s, IndexOf(s, w));
    var once := Promote(s, w);
    PromoteShape(s, w);
    assert once == [w] + Reverse(rest);
    assert IndexOf(once, w) == 0;
    assert DeleteAt(once, 0) == Reverse(rest);
    ReverseSnoc(Reverse(rest), w);
    ReverseReverse(rest);
  }

  /** [A, B, C] succeeding on B becomes [B, C, A]. */
  lemma PromoteExample()
    ensures Promote(["A", "B", "C"], "B") == ["B", "C", "A"]
  {
    var s := ["A", "B", "C"];
    assert IndexOf(s, "B") == 1;
    assert DeleteAt(s, 1) == ["A", "C"];
    PromoteShape(s, "B");
    assert Reverse(["A", "C"]) == ["C", "A"] by {
      assert ["A", "C"][1..] == ["C"];
      assert ["C"][1..] == [];
    }
  }
}
