/** The order-free checksum of a window's event ids, up to the hash itself. */
module Checksum {
  import opened Ordering

  const NUL := 0 as char

  /** What a digest has been fed: each item, ended by a NUL. */
  function Fed(items: seq<string>): string
  {
    if items == [] then "" else Fed(items[..|items| - 1]) + items[|items| - 1] + [NUL]
  }

  /** The bytes hashed for a list of ids. */
  function Preimage(ids: seq<string>): string
  {
    Fed(Sort(StrLe, ids))
  }

  /** `checksum_event_ids`; `hash` stands for the truncated SHA-256. */
  method ChecksumEventIds(ids: seq<string>, hash: string -> string) returns (checksum: string)
    ensures checksum == hash(Preimage(ids))
  {
    var fed := "";
    var sorted := Sort(StrLe, ids);
    for i := 0 to |sorted|
      invariant fed == Fed(sorted[..i])
    {
      fed := fed + sorted[i] + [NUL];
      assert sorted[..i + 1][..i] == sorted[..i];
    }
    assert sorted[..|sorted|] == sorted;
    checksum := hash(fed);
  }

  predicate NulFree(ids: seq<string>)
  {
    forall i :: 0 <= i < |ids| ==> NUL !in ids[i]
  }

  lemma {:induction false} FedCons(items: seq<string>)
    requires items != []
    ensures Fed(items) == items[0] + [NUL] + Fed(items[1..])
    decreases |items|
  {
    var n := |items| - 1;
    if n == 0 {
      assert items[..0] == [] && items[1..] == [];
    } else {
      FedCons(items[..n]);
      assert items[..n][1..] == items[1..][..n - 1];
    }
  }

  /** A NUL ends the first item and nothing before it does. */
  lemma FirstItemEnds(x: string, rest: string, y: string, more: string)
    requires NUL !in x && NUL !in y && x + [NUL] + rest == y + [NUL] + more
    ensures x == y && rest == more
  {
    var s := x + [NUL] + rest;
    assert s == y + [NUL] + more;
    assert forall i :: 0 <= i < |x| ==> s[i] == x[i];
    assert forall i :: 0 <= i < |y| ==> s[i] == y[i];
    assert s[|x|] == NUL && s[|y|] == NUL;
    assert |x| == |y|;
    assert x == s[..|x|] == y;
    assert rest == s[|x| + 1..] == more;
  }

  /** Feeding is injective on NUL-free items. */
  lemma {:induction false} FedInjective(a: seq<string>, b: seq<string>)
    requires NulFree(a) && NulFree(b) && Fed(a) == Fed(b)
    ensures a == b
    decreases |a|
  {
    if a == [] || b == [] {
      if a != [] { FedCons(a); }
      if b != [] { FedCons(b); }
    } else {
      FedCons(a);
      FedCons(b);
      FirstItemEnds(a[0], Fed(a[1..]), b[0], Fed(b[1..]));
      FedInjective(a[1..], b[1..]);
      assert a == [a[0]] + a[1..] && b == [b[0]] + b[1..];
    }
  }

  lemma SortKeepsNulFree(ids: seq<string>)
    requires NulFree(ids)
    ensures NulFree(Sort(StrLe, ids))
  {
    SortPermutes(StrLe, ids);
    var sorted := Sort(StrLe, ids);
    forall i | 0 <= i < |sorted| ensures NUL !in sorted[i] {
      assert sorted[i] in multiset(sorted);
      assert sorted[i] in ids;
    }
  }

  lemma SortIsCanonical(a: seq<string>, b: seq<string>)
    requires multiset(a) == multiset(b)
    ensures Sort(StrLe, a) == Sort(StrLe, b)
  {
    StrLeIsTotalPreorder();
    SortPermutes(StrLe, a);
    SortPermutes(StrLe, b);
    SortSorts(StrLe, a);
    SortSorts(StrLe, b);
    var s := Sort(StrLe, a);
    forall i, j | 0 <= i < |s| && 0 <= j < |s| && StrLe(s[i], s[j]) && StrLe(s[j], s[i]) ensures s[i] == s[j] {
      StrLeAntisymmetric(s[i], s[j]);
    }
    SortedUnique(StrLe, s, Sort(StrLe, b));
  }

  /** The bytes hashed tell two id lists apart exactly when they differ as multisets: order never matters, and a lost event beside a phantom one always does. */
  lemma PreimageIffSameMultiset(a: seq<string>, b: seq<string>)
    requires NulFree(a) && NulFree(b)
    ensures Preimage(a) == Preimage(b) <==> multiset(a) == multiset(b)
  {
    SortPermutes(StrLe, a);
    SortPermutes(StrLe, b);
    if multiset(a) == multiset(b) {
      SortIsCanonical(a, b);
    }
    if Preimage(a) == Preimage(b) {
      SortKeepsNulFree(a);
      SortKeepsNulFree(b);
      FedInjective(Sort(StrLe, a), Sort(StrLe, b));
    }
  }

  /** An id holding the separator breaks it: one id and two ids can feed the same bytes. */
  lemma NulCanCollide()
    ensures var one, two := [['a', NUL, 'b']], [['a'], ['b']];
            multiset(one) != multiset(two) && Preimage(one) == Preimage(two)
  {
    var one, two := [['a', NUL, 'b']], [['a'], ['b']];
    assert |multiset(one)| == 1 && |multiset(two)| == 2;
    assert Sort(StrLe, two) == two by {
      assert two[1..] == [['b']];
      assert Sort(StrLe, two[1..]) == [['b']];
      assert StrLe(['a'], ['b']);
    }
    FedCons(one);
    FedCons(two);
    FedCons(two[1..]);
    assert Fed(one) == ['a', NUL, 'b', NUL];
    assert Fed(two) == ['a', NUL, 'b', NUL];
  }

  predicate Over(ids: seq<string>, alphabet: set<char>)
  {
    forall i, j :: 0 <= i < |ids| && 0 <= j < |ids[i]| ==> ids[i][j] in alphabet
  }

  /** Lists over this alphabet that feed the same bytes hold the same ids. */
  ghost predicate Faithful(alphabet: set<char>)
  {
    forall a, b :: Over(a, alphabet) && Over(b, alphabet) && Preimage(a) == Preimage(b) ==> multiset(a) == multiset(b)
  }

  /** The id that is the separator, against the empty id twice. */
  lemma SeparatorCollides()
    ensures multiset([[NUL]]) != multiset(["", ""]) && Preimage([[NUL]]) == Preimage(["", ""])
  {
    var one, two: seq<string> := [[NUL]], ["", ""];
    assert |multiset(one)| == 1 && |multiset(two)| == 2;
    assert Sort(StrLe, two) == two by {
      assert two[1..] == [""];
      assert Sort(StrLe, two[1..]) == [""];
    }
    FedCons(one);
    FedCons(two);
    FedCons(two[1..]);
    assert Fed(one) == [NUL, NUL];
    assert Fed(two) == [NUL, NUL];
  }

  /** So an id alphabet keeps the checksum faithful exactly when it leaves out the separator. */
  lemma FaithfulIff(alphabet: set<char>)
    ensures Faithful(alphabet) <==> NUL !in alphabet
  {
    if NUL in alphabet {
      SeparatorCollides();
      assert Over([[NUL]], alphabet) && Over(["", ""], alphabet);
    } else {
      forall a, b | Over(a, alphabet) && Over(b, alphabet) && Preimage(a) == Preimage(b) ensures multiset(a) == multiset(b) {
        PreimageIffSameMultiset(a, b);
      }
    }
  }
}
